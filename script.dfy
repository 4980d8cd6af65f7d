/** batch/script.ts: the self-contained predecessor of batch/download.ts.
    It downloads a product's torrent, uploads every large file and records
    the URLs the uploads resolve with, in file order, as the product's
    media; it never lists the bucket. `ScriptRun` states what one run does;
    `RunMain` performs it step by step on the record store. */
module Script {
  import opened Strings
  import opened Paths
  import opened Libraries
  import opened Records
  import opened Acquisition

  /** The settings of one run as the script's template literals render
      them: unset variables become "undefined". */
  datatype Target = Target(bucket: string, prefix: string, region: string, code: string)

  function TargetOf(env: Env, code: string): Target {
    Target(Interpolated(env.bucket), Interpolated(env.keyPrefix), Interpolated(env.region), code)
  }

  /** `aws s3 mv <file> s3://BUCKET/<key> --acl public-read`: no metadata. */
  function UploadStep(t: Target, src: string, key: string): Step {
    Upload(src, t.bucket, key, None)
  }

  /** The uploads of `upload(files, code)`: file i goes to key i. */
  function UploadSteps(t: Target, kept: seq<string>, keys: seq<string>): (steps: seq<Step>)
    requires |keys| == |kept|
    ensures |steps| == |kept|
    ensures forall i :: 0 <= i < |kept| ==> steps[i] == UploadStep(t, kept[i], keys[i])
  {
    seq(|kept|, i requires 0 <= i < |kept| => UploadStep(t, kept[i], keys[i]))
  }

  /** What the upload to `key` resolves with: the object's public URL, or
      nothing when it rejects. */
  function UploadResult(t: Target, key: string, w: World): Option<string> {
    UploadSettles(t.bucket, t.region, key, w.uploadExit(key))
  }

  /** The uploads to the first `n` keys all exit with code 0. */
  predicate UploadedBelow(keys: seq<string>, w: World, n: nat)
    requires n <= |keys|
  {
    forall i :: 0 <= i < n ==> Succeeded(w.uploadExit(keys[i]))
  }

  /** The public URLs of the first `n` keys, in order. */
  function UrlsBelow(t: Target, keys: seq<string>, n: nat): (urls: seq<string>)
    requires n <= |keys|
    ensures |urls| == n
    ensures forall i :: 0 <= i < n ==> urls[i] == MakeS3Url(t.bucket, t.region, keys[i])
  {
    seq(n, i requires 0 <= i < n => MakeS3Url(t.bucket, t.region, keys[i]))
  }

  /** `Promise.all` of the uploads to `keys`, which rejects if any upload
      fails and otherwise resolves with URL i for key i, in key order
      whatever order the uploads finish in. */
  function Uploads(t: Target, keys: seq<string>, w: World): Result<seq<string>, Failure> {
    UploadsBelow(t, keys, w, |keys|)
  }

  /** The same for the first `n` keys of the batch. */
  function UploadsBelow(t: Target, keys: seq<string>, w: World, n: nat): Result<seq<string>, Failure>
    requires n <= |keys|
  {
    if UploadedBelow(keys, w, n) then Ok(UrlsBelow(t, keys, n)) else Err(UploadFailed)
  }

  /** Folding one more settled upload into the outcome so far. */
  function Settle(sofar: Result<seq<string>, Failure>, settled: Option<string>): Result<seq<string>, Failure> {
    match sofar
    case Err(e) => Err(e)
    case Ok(urls) => if settled.Some? then Ok(urls + [settled.value]) else Err(UploadFailed)
  }

  lemma SettleNext(t: Target, keys: seq<string>, w: World, n: nat)
    requires n < |keys|
    ensures Settle(UploadsBelow(t, keys, w, n), UploadResult(t, keys[n], w)) == UploadsBelow(t, keys, w, n + 1)
  {
    assert UploadedBelow(keys, w, n + 1) <==> UploadedBelow(keys, w, n) && Succeeded(w.uploadExit(keys[n]));
    if UploadedBelow(keys, w, n + 1) {
      assert UrlsBelow(t, keys, n + 1) == UrlsBelow(t, keys, n) + [MakeS3Url(t.bucket, t.region, keys[n])];
    }
  }

  /** The body of the `try` block: the steps it performs and, when none
      fails, the URLs to record. */
  function TryBlock(target: string, t: Target, minSize: real, w: World): (seq<Step>, Result<seq<string>, Failure>) {
    var fetched := [Download(target, DownloadDir)];
    match Gathered(minSize, w)
    case Err(e) => (fetched, Err(e))
    case Ok(kept) =>
      var keys := UploadKeys(t.prefix, t.code, kept);
      (fetched + UploadSteps(t, kept, keys), Uploads(t, keys, w))
  }

  /** What one run of `main` does. */
  function ScriptRun(records: map<string, Product>, args: seq<string>, env: Env, w: World): Run {
    var id := Arg(args, 0);
    var minSize := MinSizeArg(args, "500");
    if id == "" then Run([], Threw(MissingId))
    else if !Positive(minSize) then Run([], Threw(BadMinSize))
    else if id !in records then Run([FindRecord(id)], Threw(NoRecord(id)))
    else if !Ready(records[id]) then Run([FindRecord(id)], Threw(NotReady))
    else
      var p := records[id];
      var claimed := [FindRecord(id), WriteRecord(id, SetProcessing(true))];
      var (body, result) := TryBlock(p.downloadUrl.value, TargetOf(env, p.code), minSize.value, w);
      match result
      case Ok(urls) => Run(claimed + body + [WriteRecord(id, Finished(urls))], Completed)
      case Err(e) => Run(claimed + body + [WriteRecord(id, SetProcessing(false))], Threw(e))
  }

  /** `compression(target, index)`, which `main` no longer calls: the
      transcoded file is `<index>.mp4` beside the source. */
  function CompressedPath(target: string, index: nat): string {
    Dirname(target) + "/" + NatToString(index) + ".mp4"
  }

  /** A digit string followed by ".mp4" has no separator and the extension
      ".mp4". */
  lemma Mp4Name(digits: string)
    requires |digits| > 0 && AllDigits(digits)
    ensures Free(digits + ".mp4", '/')
    ensures ExtName(digits + ".mp4") == ".mp4"
  {
    var name := digits + ".mp4";
    forall k | 0 <= k < |name| ensures name[k] != '/' {
      if k < |digits| { assert name[k] == digits[k]; }
    }
    assert name[|name| - 4..] == ".mp4";
    Mp4ExtName(name);
  }

  /** The transcoded file is named after its index and stays in the
      source's directory. */
  lemma CompressedPathShape(target: string, index: nat)
    requires |Dirname(target)| >= 2 && Dirname(target)[0] == '/'
    ensures Basename(CompressedPath(target, index)) == NatToString(index) + ".mp4"
    ensures Dirname(CompressedPath(target, index)) == Dirname(target)
    ensures ExtName(CompressedPath(target, index)) == ".mp4"
  {
    var name := NatToString(index) + ".mp4";
    NatToStringRoundTrip(index);
    Mp4Name(NatToString(index));
    assert CompressedPath(target, index) == Dirname(target) + "/" + name;
    BasenameOfChild(Dirname(target), name);
    DirnameOfChild(Dirname(target), name);
    assert ExtName(CompressedPath(target, index)) == ExtName(name);
  }

  // ---------------------------------------------------------------------------
  // The run, step by step

  /** `upload(fileNames, code)`, one file after another: the steps started
      and what the promise settles with. */
  method UploadAll(t: Target, kept: seq<string>, keys: seq<string>, w: World)
    returns (steps: seq<Step>, result: Result<seq<string>, Failure>)
    requires |keys| == |kept|
    ensures steps == UploadSteps(t, kept, keys)
    ensures result == Uploads(t, keys, w)
  {
    steps := [];
    result := Ok([]);
    var i := 0;
    while i < |kept|
      invariant 0 <= i <= |kept|
      invariant steps == UploadSteps(t, kept[..i], keys[..i])
      invariant result == UploadsBelow(t, keys, w, i)
    {
      UploadStepsNext(t, kept, keys, i);
      SettleNext(t, keys, w, i);
      result := Settle(result, UploadResult(t, keys[i], w));
      steps := steps + [UploadStep(t, kept[i], keys[i])];
      i := i + 1;
    }
    assert kept[..i] == kept && keys[..i] == keys;
  }

  lemma UploadStepsNext(t: Target, kept: seq<string>, keys: seq<string>, n: nat)
    requires |keys| == |kept| && n < |kept|
    ensures UploadSteps(t, kept[..n + 1], keys[..n + 1]) ==
            UploadSteps(t, kept[..n], keys[..n]) + [UploadStep(t, kept[n], keys[n])]
  {
    var a := UploadSteps(t, kept[..n + 1], keys[..n + 1]);
    var b := UploadSteps(t, kept[..n], keys[..n]) + [UploadStep(t, kept[n], keys[n])];
    assert |a| == |b|;
    forall j | 0 <= j < |a| ensures a[j] == b[j] {
      assert kept[..n + 1][j] == kept[j] && keys[..n + 1][j] == keys[j];
      if j < n { assert kept[..n][j] == kept[j] && keys[..n][j] == keys[j]; }
    }
  }

  /** The `try` block, performed step by step. */
  method Acquire(target: string, t: Target, minSize: real, w: World)
    returns (steps: seq<Step>, result: Result<seq<string>, Failure>)
    ensures (steps, result) == TryBlock(target, t, minSize, w)
  {
    steps := [Download(target, DownloadDir)];
    if !DownloadSettles(w.downloadExit) {
      return steps, Err(DownloadFailed);
    }
    if w.downloads.None? {
      return steps, Err(NoScratchDir);
    }
    var kept := KeepLarge(ListFiles(DownloadDir, w.downloads.value), w.sizes, minSize);
    if kept.Err? {
      return steps, Err(kept.error);
    }
    var uploads;
    uploads, result := UploadAll(t, kept.value, UploadKeys(t.prefix, t.code, kept.value), w);
    steps := steps + uploads;
  }

  /** `main`, run against the record store. */
  method RunMain(store: ProductStore, args: seq<string>, env: Env, w: World) returns (run: Run)
    requires store.Valid()
    modifies store
    ensures store.Valid()
    ensures run == ScriptRun(old(store.records), args, env, w)
    ensures store.records == Replay(old(store.records), run.steps)
  {
    var id := Arg(args, 0);
    var minSize := MinSizeArg(args, "500");
    if id == "" {
      return Run([], Threw(MissingId));
    }
    if !Positive(minSize) {
      return Run([], Threw(BadMinSize));
    }
    var product := store.FindUnique(id);
    if product.None? {
      return Run([FindRecord(id)], Threw(NoRecord(id)));
    }
    var p := product.value;
    if !HasDownloadUrl(p) || p.isProcessing {
      return Run([FindRecord(id)], Threw(NotReady));
    }
    ghost var start := store.records;
    var _ := store.Update(id, SetProcessing(true));
    var claimed := [FindRecord(id), WriteRecord(id, SetProcessing(true))];
    assert store.records == Replay(start, claimed) by {
      ReplayAppend(start, [FindRecord(id)], [WriteRecord(id, SetProcessing(true))]);
      ReplayOneWrite(start, id, SetProcessing(true));
    }

    var t := TargetOf(env, p.code);
    var body, result := Acquire(p.downloadUrl.value, t, minSize.value, w);
    TryBlockExternal(p.downloadUrl.value, t, minSize.value, w);
    ReplayAppend(start, claimed, body);
    ReplayNoWrites(store.records, body);

    var last;
    if result.Ok? {
      last := WriteRecord(id, Finished(result.value));
      run := Run(claimed + body + [last], Completed);
    } else {
      last := WriteRecord(id, SetProcessing(false));
      run := Run(claimed + body + [last], Threw(result.error));
    }
    ghost var before := store.records;
    var _ := store.Update(id, last.data);
    ReplayAppend(start, claimed + body, [last]);
    ReplayOneWrite(before, id, last.data);
  }

  /** The `try` block reads and writes no record. */
  lemma TryBlockExternal(target: string, t: Target, minSize: real, w: World)
    ensures var steps := TryBlock(target, t, minSize, w).0;
      forall k :: 0 <= k < |steps| ==> External(steps[k]) && !IsWrite(steps[k])
  {
  }

  // ---------------------------------------------------------------------------
  // What a run guarantees

  /** A missing id or a size argument that is not a positive number stops
      the run before the store is touched; without a size argument the
      minimum is 500 MiB. */
  lemma ArgumentsCheckedFirst(records: map<string, Product>, args: seq<string>, env: Env, w: World)
    ensures var run := ScriptRun(records, args, env, w);
      run.steps == [] <==> Arg(args, 0) == "" || !Positive(MinSizeArg(args, "500"))
    ensures Arg(args, 0) == "" ==> ScriptRun(records, args, env, w).outcome == Threw(MissingId)
    ensures Arg(args, 1) == "" ==> MinSizeArg(args, "500") == Finite(500.0)
  {
    assert "500" == NatToString(500);
    NatToStringRoundTrip(500);
  }

  /** A missing record, a record without a download URL, or one already
      being processed makes the run throw before the flag is written. */
  lemma NotReadyWritesNothing(records: map<string, Product>, args: seq<string>, env: Env, w: World)
    requires Arg(args, 0) != "" && Positive(MinSizeArg(args, "500"))
    requires Arg(args, 0) !in records || !Ready(records[Arg(args, 0)])
    ensures var run := ScriptRun(records, args, env, w);
      && run.steps == [FindRecord(Arg(args, 0))]
      && run.outcome.Threw?
      && Replay(records, run.steps) == records
  {
    ReplayNoWrites(records, [FindRecord(Arg(args, 0))]);
  }

  /** The state a run leaves. It completes exactly when the download
      succeeds, the kept files can be sized and every upload succeeds; then
      the record holds, as media URLs, URL i for kept file i, and is marked
      downloaded (even when no file was large enough) and released. A run
      that throws after claiming the record leaves it exactly as it was. No
      other record changes. */
  lemma FinalState(records: map<string, Product>, args: seq<string>, env: Env, w: World)
    requires WellFormed(records)
    requires Arg(args, 0) != "" && Positive(MinSizeArg(args, "500"))
    requires Arg(args, 0) in records && Ready(records[Arg(args, 0)])
    ensures var id := Arg(args, 0);
      var p := records[id];
      var gathered := Gathered(MinSizeArg(args, "500").value, w);
      var t := TargetOf(env, p.code);
      var keys := if gathered.Ok? then UploadKeys(t.prefix, t.code, gathered.value) else [];
      var run := ScriptRun(records, args, env, w);
      var after := Replay(records, run.steps);
      && after.Keys == records.Keys
      && (forall other :: other in records && other != id ==> after[other] == records[other])
      && (run.outcome == Completed <==>
            gathered.Ok? && forall i :: 0 <= i < |keys| ==> Succeeded(w.uploadExit(keys[i])))
      && (run.outcome == Completed ==>
            && after[id] == p.(mediaUrls := after[id].mediaUrls, isDownloaded := true, isProcessing := false)
            && |after[id].mediaUrls| == |keys|
            && forall i :: 0 <= i < |keys| ==> after[id].mediaUrls[i] == MakeS3Url(t.bucket, t.region, keys[i]))
      && (run.outcome.Threw? ==> after[id] == p)
  {
    var id := Arg(args, 0);
    var p := records[id];
    var minSize := MinSizeArg(args, "500").value;
    var t := TargetOf(env, p.code);
    var run := ScriptRun(records, args, env, w);
    var claimed := [FindRecord(id), WriteRecord(id, SetProcessing(true))];
    var (body, result) := TryBlock(p.downloadUrl.value, t, minSize, w);
    var last := if result.Ok? then WriteRecord(id, Finished(result.value)) else WriteRecord(id, SetProcessing(false));
    assert run.steps == claimed + body + [last];
    TryBlockExternal(p.downloadUrl.value, t, minSize, w);
    ClaimedOutcome(records, id, body, result);
  }

  /** The code marks a record downloaded even when no file passed the size
      filter: a successful download of only small files completes with no
      media URLs. */
  lemma EmptyBatchStillDownloaded(records: map<string, Product>, args: seq<string>, env: Env, w: World)
    requires WellFormed(records)
    requires Arg(args, 0) != "" && Positive(MinSizeArg(args, "500"))
    requires Arg(args, 0) in records && Ready(records[Arg(args, 0)])
    requires Gathered(MinSizeArg(args, "500").value, w) == Ok([])
    ensures var run := ScriptRun(records, args, env, w);
      var after := Replay(records, run.steps);
      && run.outcome == Completed
      && Arg(args, 0) in after && after[Arg(args, 0)].isDownloaded && after[Arg(args, 0)].mediaUrls == []
  {
    FinalState(records, args, env, w);
  }

  /** Flag hygiene: a run ends with the record's `isProcessing` as it found
      it. */
  lemma FlagRestored(records: map<string, Product>, args: seq<string>, env: Env, w: World)
    requires WellFormed(records)
    requires Arg(args, 0) in records
    ensures var after := Replay(records, ScriptRun(records, args, env, w).steps);
      Arg(args, 0) in after && after[Arg(args, 0)].isProcessing == records[Arg(args, 0)].isProcessing
  {
    ReplayKeepsWellFormed(records, ScriptRun(records, args, env, w).steps);
    var id := Arg(args, 0);
    var run := ScriptRun(records, args, env, w);
    if id == "" || !Positive(MinSizeArg(args, "500")) {
      ReplayNoWrites(records, run.steps);
    } else if !Ready(records[id]) {
      NotReadyWritesNothing(records, args, env, w);
    } else {
      FinalState(records, args, env, w);
    }
  }
}
