/** batch/compression.ts: download one file, transcode the first file found
    into `<stem>.compressed.mp4` beside it, upload that under
    `KEY_PREFIX/code/`, and record the objects then listed there as the
    product's media. It never reads or writes the record's flags.
    `CompressionRun` states what one run does; `RunMain` performs it step by
    step on the record store. */
module Compression {
  import opened Strings
  import opened Paths
  import opened Libraries
  import opened Records
  import opened Acquisition

  const CompressedSuffix: string := ".compressed.mp4"

  /** `compression(target)`'s output file: the target's directory, its base
      name without extension, then ".compressed.mp4". */
  function CompressedPath(target: string): string {
    Dirname(target) + "/" + Stem(target) + CompressedSuffix
  }

  /** `${prefix}/${code}/${path.basename(src)}` */
  function CompressedKey(prefix: string, code: string, src: string): string {
    prefix + "/" + code + "/" + Basename(src)
  }

  /** `{ mediaUrls }`: the only write a compression run makes. */
  function MediaOnly(urls: seq<string>): ProductUpdate {
    ProductUpdate(Some(urls), None, None)
  }

  /** `const [file] = listFiles('/downloads')`: the first file the
      download produced, if any. */
  function FirstFile(entries: seq<Entry>): (first: Option<string>)
    ensures first.Some? <==> ListFiles(DownloadDir, entries) != []
    ensures first.Some? ==> first.value == ListFiles(DownloadDir, entries)[0]
  {
    var files := ListFiles(DownloadDir, entries);
    if files == [] then None else Some(files[0])
  }

  /** The rest of the `try` block once `file` is known and `src` is the
      name of its transcoded copy: transcode, upload under
      `prefix/code/<base name of src>` with the scanned metadata, list. */
  function Publish(file: string, src: string, bucket: string, prefix: string, region: string, code: string, w: World)
    : (seq<Step>, Result<seq<string>, Failure>)
  {
    var compressed := [Compress(file, src)];
    if !Succeeded(w.compressExit) then (compressed, Err(CompressionFailed))
    else
      var key := CompressedKey(prefix, code, src);
      var uploaded := compressed + [Upload(src, bucket, key, Some(FormatForMeta(Scan(w.probe(src)))))];
      if !Succeeded(w.uploadExit(key)) then (uploaded, Err(UploadFailed))
      else
        var listed := uploaded + [ListObjects(bucket, prefix, code)];
        match FileListOnS3(w.listing)
        case None => (listed, Err(ListingFailed))
        case Some(names) => (listed, Ok(ListingUrls(bucket, region, prefix, code, names)))
  }

  /** The body of the `try` block: the steps it performs and, when none
      fails, the new `mediaUrls`. */
  function TryBlock(target: string, bucket: string, prefix: string, region: string, code: string, w: World)
    : (seq<Step>, Result<seq<string>, Failure>)
  {
    var fetched := [Download(target, DownloadDir)];
    if !DownloadSettles(w.downloadExit) then (fetched, Err(DownloadFailed))
    else if w.downloads.None? then (fetched, Err(NoScratchDir))
    else match FirstFile(w.downloads.value)
      case None => (fetched, Err(NoFileToCompress))
      case Some(file) =>
        var (steps, result) := Publish(file, CompressedPath(file), bucket, prefix, region, code, w);
        (fetched + steps, result)
  }

  /** What one run of `main` does. */
  function CompressionRun(records: map<string, Product>, args: seq<string>, env: Env, w: World): Run {
    var id := Arg(args, 0);
    var target := Arg(args, 1);
    if id == "" then Run([], Threw(MissingId))
    else if target == "" then Run([], Threw(MissingTarget))
    else if id !in records then Run([FindRecord(id)], Threw(NoRecord(id)))
    else
      var (body, result) := TryBlock(target, OrEmpty(env.bucket), OrEmpty(env.keyPrefix), Interpolated(env.region),
                                     records[id].code, w);
      match result
      case Ok(urls) => Run([FindRecord(id)] + body + [WriteRecord(id, MediaOnly(urls))], Completed)
      case Err(e) => Run([FindRecord(id)] + body, Threw(e))
  }

  // ---------------------------------------------------------------------------
  // The run, step by step

  /** Transcoding, upload and listing, performed step by step. */
  method PublishSteps(file: string, src: string, bucket: string, prefix: string, region: string, code: string, w: World)
    returns (steps: seq<Step>, result: Result<seq<string>, Failure>)
    ensures (steps, result) == Publish(file, src, bucket, prefix, region, code, w)
  {
    steps := [Compress(file, src)];
    if !Succeeded(w.compressExit) {
      return steps, Err(CompressionFailed);
    }
    var key := CompressedKey(prefix, code, src);
    steps := steps + [Upload(src, bucket, key, Some(FormatForMeta(Scan(w.probe(src)))))];
    if !Succeeded(w.uploadExit(key)) {
      return steps, Err(UploadFailed);
    }
    steps := steps + [ListObjects(bucket, prefix, code)];
    var names := FileListOnS3(w.listing);
    if names.None? {
      return steps, Err(ListingFailed);
    }
    result := Ok(ListingUrls(bucket, region, prefix, code, names.value));
  }

  /** The `try` block, performed step by step. */
  method Acquire(target: string, bucket: string, prefix: string, region: string, code: string, w: World)
    returns (steps: seq<Step>, result: Result<seq<string>, Failure>)
    ensures (steps, result) == TryBlock(target, bucket, prefix, region, code, w)
  {
    steps := [Download(target, DownloadDir)];
    if !DownloadSettles(w.downloadExit) {
      return steps, Err(DownloadFailed);
    }
    if w.downloads.None? {
      return steps, Err(NoScratchDir);
    }
    var file := FirstFile(w.downloads.value);
    if file.None? {
      return steps, Err(NoFileToCompress);
    }
    var more;
    more, result := PublishSteps(file.value, CompressedPath(file.value), bucket, prefix, region, code, w);
    steps := steps + more;
  }

  /** `main`, run against the record store. */
  method RunMain(store: ProductStore, args: seq<string>, env: Env, w: World) returns (run: Run)
    requires store.Valid()
    modifies store
    ensures store.Valid()
    ensures run == CompressionRun(old(store.records), args, env, w)
    ensures store.records == Replay(old(store.records), run.steps)
  {
    var id := Arg(args, 0);
    var target := Arg(args, 1);
    if id == "" {
      return Run([], Threw(MissingId));
    }
    if target == "" {
      return Run([], Threw(MissingTarget));
    }
    var product := store.FindUnique(id);
    if product.None? {
      return Run([FindRecord(id)], Threw(NoRecord(id)));
    }
    var p := product.value;
    var bucket, prefix, code := OrEmpty(env.bucket), OrEmpty(env.keyPrefix), p.code;
    var body, result := Acquire(target, bucket, prefix, Interpolated(env.region), code, w);
    TryBlockExternal(target, bucket, prefix, Interpolated(env.region), code, w);
    ReplayNoWrites(store.records, [FindRecord(id)] + body);
    if result.Err? {
      return Run([FindRecord(id)] + body, Threw(result.error));
    }
    ghost var start := store.records;
    var _ := store.Update(id, MediaOnly(result.value));
    run := Run([FindRecord(id)] + body + [WriteRecord(id, MediaOnly(result.value))], Completed);
    ReplayAppend(start, [FindRecord(id)] + body, [WriteRecord(id, MediaOnly(result.value))]);
    ReplayOneWrite(start, id, MediaOnly(result.value));
  }

  /** Transcoding comes first and only once, the upload of the transcoded
      file under `prefix/code/<base name>` follows it when it succeeds, and
      no step touches a record. */
  lemma PublishShape(file: string, src: string, bucket: string, prefix: string, region: string, code: string, w: World)
    ensures var steps := Publish(file, src, bucket, prefix, region, code, w).0;
      && 1 <= |steps| && steps[0] == Compress(file, src)
      && (forall k :: 0 <= k < |steps| ==> External(steps[k]) && !IsWrite(steps[k]))
      && (forall k :: 1 <= k < |steps| ==> !steps[k].Compress?)
      && (Succeeded(w.compressExit) ==>
            && 2 <= |steps|
            && steps[1] == Upload(src, bucket, CompressedKey(prefix, code, src), Some(FormatForMeta(Scan(w.probe(src))))))
  {
    var key := CompressedKey(prefix, code, src);
    var all := [Compress(file, src), Upload(src, bucket, key, Some(FormatForMeta(Scan(w.probe(src))))),
                ListObjects(bucket, prefix, code)];
    var steps := Publish(file, src, bucket, prefix, region, code, w).0;
    assert steps == all[..|steps|];
  }

  /** The `try` block reads and writes no record. */
  lemma TryBlockExternal(target: string, bucket: string, prefix: string, region: string, code: string, w: World)
    ensures var steps := TryBlock(target, bucket, prefix, region, code, w).0;
      forall k :: 0 <= k < |steps| ==> External(steps[k]) && !IsWrite(steps[k])
  {
    if DownloadSettles(w.downloadExit) && w.downloads.Some? && FirstFile(w.downloads.value).Some? {
      var file := FirstFile(w.downloads.value).value;
      PublishShape(file, CompressedPath(file), bucket, prefix, region, code, w);
    }
  }

  // ---------------------------------------------------------------------------
  // What a run guarantees

  /** `<stem>.compressed.mp4` has no separator and the extension ".mp4". */
  lemma CompressedName(stem: string)
    requires Free(stem, '/')
    ensures Free(stem + CompressedSuffix, '/')
    ensures ExtName(stem + CompressedSuffix) == ".mp4"
  {
    var name := stem + CompressedSuffix;
    forall k | 0 <= k < |name| ensures name[k] != '/' {
      if k < |stem| { assert name[k] == stem[k]; }
    }
    assert name[|name| - 4..] == ".mp4";
    Mp4ExtName(name);
  }

  /** The output keeps the target's directory and stem, and its base name
      and extension are what the upload key and the listing see. */
  lemma CompressedPathShape(target: string)
    requires |Dirname(target)| >= 2 && Dirname(target)[0] == '/'
    ensures Basename(CompressedPath(target)) == Stem(target) + CompressedSuffix
    ensures Dirname(CompressedPath(target)) == Dirname(target)
    ensures ExtName(CompressedPath(target)) == ".mp4"
  {
    var name := Stem(target) + CompressedSuffix;
    StemFree(target);
    CompressedName(Stem(target));
    assert CompressedPath(target) == Dirname(target) + "/" + name;
    BasenameOfChild(Dirname(target), name);
    DirnameOfChild(Dirname(target), name);
    assert ExtName(CompressedPath(target)) == ExtName(name);
  }

  /** A missing id or target URL stops the run before the store is
      touched. */
  lemma ArgumentsCheckedFirst(records: map<string, Product>, args: seq<string>, env: Env, w: World)
    ensures var run := CompressionRun(records, args, env, w);
      run.steps == [] <==> Arg(args, 0) == "" || Arg(args, 1) == ""
    ensures Arg(args, 0) == "" ==> CompressionRun(records, args, env, w).outcome == Threw(MissingId)
    ensures Arg(args, 0) != "" && Arg(args, 1) == "" ==>
      CompressionRun(records, args, env, w).outcome == Threw(MissingTarget)
  {
  }

  /** With both arguments given, a record that does not exist makes the run
      throw right after the lookup, naming the id, with nothing written. */
  lemma MissingRecordWritesNothing(records: map<string, Product>, args: seq<string>, env: Env, w: World)
    requires Arg(args, 0) != "" && Arg(args, 1) != ""
    requires Arg(args, 0) !in records
    ensures var run := CompressionRun(records, args, env, w);
      && run == Run([FindRecord(Arg(args, 0))], Threw(NoRecord(Arg(args, 0))))
      && Replay(records, run.steps) == records
  {
    ReplayNoWrites(records, [FindRecord(Arg(args, 0))]);
  }

  /** In the `try` block, the first file found is the one transcoded, it
      is transcoded once, and the upload that follows carries the
      transcoded file under `prefix/code/<its base name>`. */
  lemma TryBlockFirstFile(target: string, bucket: string, prefix: string, region: string, code: string, w: World)
    requires DownloadSettles(w.downloadExit) && w.downloads.Some?
    requires ListFiles(DownloadDir, w.downloads.value) != []
    ensures var body := TryBlock(target, bucket, prefix, region, code, w).0;
      var first := ListFiles(DownloadDir, w.downloads.value)[0];
      && |body| >= 2
      && body[1] == Compress(first, CompressedPath(first))
      && (forall k :: 0 <= k < |body| && body[k].Compress? ==> k == 1)
      && (Succeeded(w.compressExit) ==>
            && |body| >= 3
            && body[2].Upload?
            && body[2].src == CompressedPath(first)
            && body[2].key == CompressedKey(prefix, code, CompressedPath(first)))
  {
    var file := FirstFile(w.downloads.value).value;
    var more := Publish(file, CompressedPath(file), bucket, prefix, region, code, w).0;
    PublishShape(file, CompressedPath(file), bucket, prefix, region, code, w);
    var body := TryBlock(target, bucket, prefix, region, code, w).0;
    assert body == [Download(target, DownloadDir)] + more;
    forall k | 0 <= k < |body| && body[k].Compress? ensures k == 1 {
      if 1 <= k { assert body[k] == more[k - 1]; }
    }
  }

  /** A run past the argument checks on an existing record looks the record
      up, performs the `try` block and, when it succeeds, writes the media
      URLs. */
  lemma RunShape(records: map<string, Product>, args: seq<string>, env: Env, w: World)
    requires Arg(args, 0) != "" && Arg(args, 1) != "" && Arg(args, 0) in records
    ensures var id := Arg(args, 0);
      var (body, result) := TryBlock(Arg(args, 1), OrEmpty(env.bucket), OrEmpty(env.keyPrefix),
                                     Interpolated(env.region), records[id].code, w);
      CompressionRun(records, args, env, w).steps ==
        [FindRecord(id)] + body + (if result.Ok? then [WriteRecord(id, MediaOnly(result.value))] else [])
  {
  }

  /** Only the first file the download produced is transcoded, once, right
      after the record lookup and the download. */
  lemma FirstFileOnly(records: map<string, Product>, args: seq<string>, env: Env, w: World)
    requires Arg(args, 0) != "" && Arg(args, 1) != "" && Arg(args, 0) in records
    requires DownloadSettles(w.downloadExit) && w.downloads.Some?
    requires ListFiles(DownloadDir, w.downloads.value) != []
    ensures var run := CompressionRun(records, args, env, w);
      var first := ListFiles(DownloadDir, w.downloads.value)[0];
      && |run.steps| >= 3
      && run.steps[2] == Compress(first, CompressedPath(first))
      && (forall k :: 0 <= k < |run.steps| && run.steps[k].Compress? ==> k == 2)
  {
    var id := Arg(args, 0);
    var (body, result) := TryBlock(Arg(args, 1), OrEmpty(env.bucket), OrEmpty(env.keyPrefix),
                                   Interpolated(env.region), records[id].code, w);
    TryBlockFirstFile(Arg(args, 1), OrEmpty(env.bucket), OrEmpty(env.keyPrefix), Interpolated(env.region),
                      records[id].code, w);
    RunShape(records, args, env, w);
    CompressShifted(FindRecord(id), body, if result.Ok? then [WriteRecord(id, MediaOnly(result.value))] else []);
  }

  /** Putting one step in front moves the only transcoding step from
      index 1 to index 2. */
  lemma CompressShifted(front: Step, body: seq<Step>, last: seq<Step>)
    requires !front.Compress? && |body| >= 2 && body[1].Compress?
    requires forall k :: 0 <= k < |body| && body[k].Compress? ==> k == 1
    requires forall k :: 0 <= k < |last| ==> !last[k].Compress?
    ensures var steps := [front] + body + last;
      && |steps| >= 3 && steps[2] == body[1]
      && forall k :: 0 <= k < |steps| && steps[k].Compress? ==> k == 2
  {
    var steps := [front] + body + last;
    forall k | 0 <= k < |steps| && steps[k].Compress? ensures k == 2 {
      if 1 <= k < 1 + |body| { assert steps[k] == body[k - 1]; }
    }
  }

  /** When transcoding succeeds, the next step uploads the transcoded file
      under `prefix/code/<its base name>`. */
  lemma TranscodedUploaded(records: map<string, Product>, args: seq<string>, env: Env, w: World)
    requires Arg(args, 0) != "" && Arg(args, 1) != "" && Arg(args, 0) in records
    requires DownloadSettles(w.downloadExit) && w.downloads.Some?
    requires ListFiles(DownloadDir, w.downloads.value) != []
    requires Succeeded(w.compressExit)
    ensures var run := CompressionRun(records, args, env, w);
      var src := CompressedPath(ListFiles(DownloadDir, w.downloads.value)[0]);
      && |run.steps| >= 4
      && run.steps[3].Upload?
      && run.steps[3].src == src
      && run.steps[3].key == OrEmpty(env.keyPrefix) + "/" + records[Arg(args, 0)].code + "/" + Basename(src)
  {
    var id := Arg(args, 0);
    var (body, result) := TryBlock(Arg(args, 1), OrEmpty(env.bucket), OrEmpty(env.keyPrefix),
                                   Interpolated(env.region), records[id].code, w);
    TryBlockFirstFile(Arg(args, 1), OrEmpty(env.bucket), OrEmpty(env.keyPrefix), Interpolated(env.region),
                      records[id].code, w);
    RunShape(records, args, env, w);
    StepAfterFront(FindRecord(id), body, if result.Ok? then [WriteRecord(id, MediaOnly(result.value))] else [], 2);
  }

  lemma StepAfterFront(front: Step, body: seq<Step>, last: seq<Step>, k: nat)
    requires k < |body|
    ensures |[front] + body + last| >= k + 2 && ([front] + body + last)[k + 1] == body[k]
  {
  }

  /** The state a run leaves. It completes exactly when every external step
      succeeds, and then the record's media URLs are replaced by the URLs
      of everything listed under `prefix/code/`, old objects included; no
      other field and no other record changes. A run that throws writes
      nothing at all. */
  lemma FinalState(records: map<string, Product>, args: seq<string>, env: Env, w: World)
    requires WellFormed(records)
    requires Arg(args, 0) != "" && Arg(args, 1) != "" && Arg(args, 0) in records
    ensures var id := Arg(args, 0);
      var p := records[id];
      var run := CompressionRun(records, args, env, w);
      var after := Replay(records, run.steps);
      var files := if w.downloads.Some? then ListFiles(DownloadDir, w.downloads.value) else [];
      && (run.outcome == Completed <==>
            DownloadSettles(w.downloadExit) && w.downloads.Some? && files != [] && Succeeded(w.compressExit)
            && Succeeded(w.uploadExit(CompressedKey(OrEmpty(env.keyPrefix), p.code, CompressedPath(files[0]))))
            && FileListOnS3(w.listing).Some?)
      && (run.outcome == Completed ==>
            after == records[id := p.(mediaUrls := ListingUrls(OrEmpty(env.bucket), Interpolated(env.region),
                                                               OrEmpty(env.keyPrefix), p.code, FileListOnS3(w.listing).value))])
      && (run.outcome.Threw? ==> after == records)
  {
    var id := Arg(args, 0);
    var p := records[id];
    var bucket, prefix, region := OrEmpty(env.bucket), OrEmpty(env.keyPrefix), Interpolated(env.region);
    var (body, result) := TryBlock(Arg(args, 1), bucket, prefix, region, p.code, w);
    TryBlockExternal(Arg(args, 1), bucket, prefix, region, p.code, w);
    ReplayNoWrites(records, [FindRecord(id)] + body);
    if result.Ok? {
      ReplayAppend(records, [FindRecord(id)] + body, [WriteRecord(id, MediaOnly(result.value))]);
      ReplayOneWrite(records, id, MediaOnly(result.value));
    }
  }

  /** The flags play no part: a run does the same whatever the record's
      `isProcessing` and `isDownloaded`, and leaves them as they were. */
  lemma FlagsIgnored(records: map<string, Product>, args: seq<string>, env: Env, w: World, processing: bool, downloaded: bool)
    requires WellFormed(records)
    requires Arg(args, 0) in records
    ensures var id := Arg(args, 0);
      var flagged := records[id := records[id].(isProcessing := processing, isDownloaded := downloaded)];
      CompressionRun(flagged, args, env, w) == CompressionRun(records, args, env, w)
    ensures var after := Replay(records, CompressionRun(records, args, env, w).steps);
      && Arg(args, 0) in after
      && after[Arg(args, 0)].isProcessing == records[Arg(args, 0)].isProcessing
      && after[Arg(args, 0)].isDownloaded == records[Arg(args, 0)].isDownloaded
  {
    var run := CompressionRun(records, args, env, w);
    if Arg(args, 0) == "" || Arg(args, 1) == "" {
      ReplayNoWrites(records, run.steps);
    } else {
      FinalState(records, args, env, w);
    }
  }
}
