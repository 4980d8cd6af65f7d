/** What the three acquisition scripts (batch/download.ts, batch/script.ts,
    batch/compression.ts) have in common: their command-line arguments, the
    environment they read, the outcomes of the external steps they run (given
    as inputs), the trace of steps a run performs, the size filter, and the
    storage keys derived for uploaded files. */
module Acquisition {
  import opened Strings
  import opened Libraries
  import opened Paths
  import opened Records

  // ---------------------------------------------------------------------------
  // Arguments and environment

  /** `process.argv[2 + i]`, with a missing argument read as "" (both are
      falsy and both fall back to the default under `||`). */
  function Arg(args: seq<string>, i: nat): string {
    if i < |args| then args[i] else ""
  }

  /** The environment variables the scripts read; `None` when unset. */
  datatype Env = Env(bucket: Option<string>, keyPrefix: Option<string>, region: Option<string>)

  /** `process.env.X ?? ''` */
  function OrEmpty(v: Option<string>): string {
    if v.Some? then v.value else ""
  }

  /** `${process.env.X}` in a template literal: an unset variable renders as
      "undefined". */
  function Interpolated(v: Option<string>): string {
    if v.Some? then v.value else "undefined"
  }

  /** A JavaScript number as `Number(text)` produces it. */
  datatype JsNumber = NaN | Finite(value: real)

  function Pow10(n: nat): (r: nat)
    ensures r >= 1
  {
    if n == 0 then 1 else 10 * Pow10(n - 1)
  }

  /** The value of "ddd" or "ddd.fff" (either side may be empty, not both). */
  function DecimalValue(whole: string, frac: string): real
    requires AllDigits(whole) && AllDigits(frac)
  {
    DigitsValue(whole) as real + (DigitsValue(frac) as real) / (Pow10(|frac|) as real)
  }

  function IndexOfDot(s: string): (r: Option<nat>)
    ensures r.Some? ==> r.value < |s| && s[r.value] == '.' && Free(s[..r.value], '.')
    ensures r.None? ==> Free(s, '.')
  {
    if s == [] then None
    else if s[0] == '.' then Some(0)
    else match IndexOfDot(s[1..])
      case None => None
      case Some(i) => Some(i + 1)
  }

  /** `Number(text)` for plain decimal notation ("400", "0.5", "12.", ".5");
      every other text is NaN here. */
  function ToNumber(text: string): (n: JsNumber)
    ensures AllDigits(text) && text != "" ==> n == Finite(DigitsValue(text) as real)
  {
    match IndexOfDot(text)
    case None =>
      if text != "" && AllDigits(text) then Finite(DigitsValue(text) as real) else NaN
    case Some(i) =>
      var whole, frac := text[..i], text[i + 1..];
      if (whole != "" || frac != "") && AllDigits(whole) && AllDigits(frac)
      then Finite(DecimalValue(whole, frac)) else NaN
  }

  /** `Number(process.argv[3] || fallback)` */
  function MinSizeArg(args: seq<string>, fallback: string): JsNumber {
    ToNumber(if Arg(args, 1) != "" then Arg(args, 1) else fallback)
  }

  /** `minSize > 0`; false for NaN. */
  predicate Positive(n: JsNumber) { n.Finite? && n.value > 0.0 }

  /** `minSize * 1024 * 1024`: the size, in bytes, a file must exceed. */
  function Threshold(minSize: real): real {
    minSize * 1024.0 * 1024.0
  }

  // ---------------------------------------------------------------------------
  // The outside world of one run

  /** The outcomes of the external steps, fixed in advance: the downloader's
      exit code; what the scratch directory holds afterwards (`None` when it
      does not exist); each file's size (`fs.statSync` throws for a path
      without one); what probing a file reports; the exit code of uploading to
      each key; the transcoder's exit code; and what the listing command
      prints. */
  datatype World = World(
    downloadExit: ExitCode,
    downloads: Option<seq<Entry>>,
    sizes: map<string, nat>,
    probe: string -> Option<Probe>,
    uploadExit: string -> ExitCode,
    compressExit: ExitCode,
    listing: ExecResult)

  /** The scratch directory every script downloads into. */
  const DownloadDir: string := "/downloads"

  // ---------------------------------------------------------------------------
  // Runs

  /** Why a run throws. */
  datatype Failure =
    | MissingId                // no record id argument
    | BadMinSize               // the size argument is not a positive number
    | MissingTarget            // no target URL argument
    | NoRecord(id: string)     // no record with that id
    | NotReady                 // no downloadUrl, or a run is already in flight
    | DownloadFailed           // aria2c exited non-zero or was killed
    | NoScratchDir             // readdirSync of the scratch directory threw
    | StatFailed(path: string) // statSync threw for a listed path
    | NoFileToCompress         // the download produced no file
    | CompressionFailed        // ffmpeg exited non-zero or was killed
    | UploadFailed             // some `aws s3 mv` exited non-zero
    | ListingFailed            // the listing command failed or wrote to stderr

  /** One observable step of a run, in the order the script performs them. */
  datatype Step =
    | FindRecord(id: string)
    | WriteRecord(id: string, data: ProductUpdate)
    | Download(target: string, dir: string)
    | Compress(src: string, out: string)
    | Upload(src: string, bucket: string, key: string, metadata: Option<string>)
    | ListObjects(bucket: string, prefix: string, code: string)

  datatype Outcome = Completed | Threw(error: Failure)

  datatype Run = Run(steps: seq<Step>, outcome: Outcome)

  /** `!product.downloadUrl` is false: a non-empty URL is present. */
  predicate HasDownloadUrl(p: Product) {
    p.downloadUrl.Some? && p.downloadUrl.value != ""
  }

  /** The record may be processed: there is something to download and no
      other run holds it. */
  predicate Ready(p: Product) {
    HasDownloadUrl(p) && !p.isProcessing
  }

  /** `{ mediaUrls, isDownloaded: true, isProcessing: false }`: the write
      that closes a successful run. */
  function Finished(urls: seq<string>): ProductUpdate {
    ProductUpdate(Some(urls), Some(true), Some(false))
  }

  /** The record writes of a trace, applied in order to the store. */
  function Replay(records: map<string, Product>, steps: seq<Step>): map<string, Product>
    decreases |steps|
  {
    if steps == [] then records
    else
      var next := match steps[0]
        case WriteRecord(id, u) => if id in records then records[id := Apply(records[id], u)] else records
        case _ => records;
      Replay(next, steps[1..])
  }

  predicate IsWrite(s: Step) { s.WriteRecord? }

  /** Steps of the external tools only: no record access. */
  predicate External(s: Step) { !s.FindRecord? && !s.WriteRecord? }

  lemma {:induction false} ReplayAppend(records: map<string, Product>, a: seq<Step>, b: seq<Step>)
    ensures Replay(records, a + b) == Replay(Replay(records, a), b)
    decreases |a|
  {
    if a == [] {
      assert a + b == b;
    } else {
      assert (a + b)[0] == a[0];
      assert (a + b)[1..] == a[1..] + b;
      var next := match a[0]
        case WriteRecord(id, u) => if id in records then records[id := Apply(records[id], u)] else records
        case _ => records;
      ReplayAppend(next, a[1..], b);
    }
  }

  /** Steps that write nothing leave the store as it was. */
  lemma {:induction false} ReplayNoWrites(records: map<string, Product>, steps: seq<Step>)
    requires forall k :: 0 <= k < |steps| ==> !IsWrite(steps[k])
    ensures Replay(records, steps) == records
    decreases |steps|
  {
    if steps != [] {
      ReplayNoWrites(records, steps[1..]);
    }
  }

  lemma ReplayOneWrite(records: map<string, Product>, id: string, u: ProductUpdate)
    ensures Replay(records, [WriteRecord(id, u)]) ==
            if id in records then records[id := Apply(records[id], u)] else records
  {
    assert [WriteRecord(id, u)][1..] == [];
  }

  /** A write of a well-formed store by its own id keeps it well formed. */
  lemma {:induction false} ReplayKeepsWellFormed(records: map<string, Product>, steps: seq<Step>)
    requires WellFormed(records)
    ensures WellFormed(Replay(records, steps))
    ensures Replay(records, steps).Keys == records.Keys
    decreases |steps|
  {
    if steps != [] {
      match steps[0]
      case WriteRecord(id, u) =>
        if id in records {
          UpdateKeepsWellFormed(records, id, u);
          ReplayKeepsWellFormed(records[id := Apply(records[id], u)], steps[1..]);
        } else {
          ReplayKeepsWellFormed(records, steps[1..]);
        }
      case _ =>
        ReplayKeepsWellFormed(records, steps[1..]);
    }
  }

  /** A run that finds a free record, claims it, performs external steps
      only and ends with one more write to it changes that record alone: by
      the closing write applied over the claim. */
  lemma ClaimedRun(records: map<string, Product>, id: string, body: seq<Step>, u: ProductUpdate)
    requires WellFormed(records) && id in records
    requires forall k :: 0 <= k < |body| ==> !IsWrite(body[k])
    ensures var steps := [FindRecord(id), WriteRecord(id, SetProcessing(true))] + body + [WriteRecord(id, u)];
      Replay(records, steps) == records[id := Apply(Apply(records[id], SetProcessing(true)), u)]
  {
    var claimed := [FindRecord(id), WriteRecord(id, SetProcessing(true))];
    ReplayAppend(records, claimed + body, [WriteRecord(id, u)]);
    ReplayAppend(records, claimed, body);
    ReplayAppend(records, [FindRecord(id)], [WriteRecord(id, SetProcessing(true))]);
    ReplayOneWrite(records, id, SetProcessing(true));
    var r1 := records[id := Apply(records[id], SetProcessing(true))];
    ReplayNoWrites(r1, body);
    ReplayOneWrite(r1, id, u);
  }

  /** A run that claimed a ready record and then wrote only its closing
      update leaves every other record alone; on success the record holds
      the new media URLs and is marked downloaded and released, and on
      failure it is exactly as it was. */
  lemma ClaimedOutcome(records: map<string, Product>, id: string, body: seq<Step>, result: Result<seq<string>, Failure>)
    requires WellFormed(records) && id in records && !records[id].isProcessing
    requires forall k :: 0 <= k < |body| ==> !IsWrite(body[k])
    ensures var u := if result.Ok? then Finished(result.value) else SetProcessing(false);
      var after := Replay(records, [FindRecord(id), WriteRecord(id, SetProcessing(true))] + body + [WriteRecord(id, u)]);
      && after.Keys == records.Keys
      && (forall other :: other in records && other != id ==> after[other] == records[other])
      && (result.Ok? ==>
            after[id] == records[id].(mediaUrls := result.value, isDownloaded := true, isProcessing := false))
      && (result.Err? ==> after[id] == records[id])
  {
    var u := if result.Ok? then Finished(result.value) else SetProcessing(false);
    ClaimedRun(records, id, body, u);
  }

  // ---------------------------------------------------------------------------
  // The size filter

  /** `files.filter(p => fs.statSync(p).size > minSize * 1024 * 1024)`,
      throwing at the first path that has no size. */
  function KeepLarge(files: seq<string>, sizes: map<string, nat>, minSize: real): Result<seq<string>, Failure>
    decreases |files|
  {
    if files == [] then Ok([])
    else if files[0] !in sizes then Err(StatFailed(files[0]))
    else match KeepLarge(files[1..], sizes, minSize)
      case Err(e) => Err(e)
      case Ok(rest) =>
        Ok((if sizes[files[0]] as real > Threshold(minSize) then [files[0]] else []) + rest)
  }

  /** The filter fails exactly when some listed path has no size, and then
      names the first such path; otherwise it keeps, in listing order,
      exactly the files strictly larger than `minSize` MiB, so a file of
      exactly `minSize` MiB is dropped. */
  lemma {:induction false} KeepLargeSpec(files: seq<string>, sizes: map<string, nat>, minSize: real)
    ensures KeepLarge(files, sizes, minSize).Ok? <==> forall k :: 0 <= k < |files| ==> files[k] in sizes
    ensures KeepLarge(files, sizes, minSize).Err? ==>
      exists k :: 0 <= k < |files| && files[k] !in sizes &&
        KeepLarge(files, sizes, minSize).error == StatFailed(files[k]) &&
        forall j :: 0 <= j < k ==> files[j] in sizes
    ensures KeepLarge(files, sizes, minSize).Ok? ==>
      var kept := KeepLarge(files, sizes, minSize).value;
      && Subsequence(kept, files)
      && forall p :: p in kept <==> p in files && p in sizes && sizes[p] as real > Threshold(minSize)
    decreases |files|
  {
    if files != [] {
      KeepLargeSpec(files[1..], sizes, minSize);
      var r := KeepLarge(files, sizes, minSize);
      if files[0] in sizes {
        var rest := KeepLarge(files[1..], sizes, minSize);
        if rest.Err? {
          var k :| 0 <= k < |files[1..]| && files[1..][k] !in sizes &&
            rest.error == StatFailed(files[1..][k]) && forall j :: 0 <= j < k ==> files[1..][j] in sizes;
          assert files[k + 1] !in sizes;
          assert forall j :: 0 <= j < k + 1 ==> files[j] in sizes by {
            forall j | 0 <= j < k + 1 ensures files[j] in sizes {
              if j > 0 { assert files[j] == files[1..][j - 1]; }
            }
          }
        } else {
          assert forall k :: 0 <= k < |files| ==> files[k] in sizes by {
            forall k | 0 <= k < |files| ensures files[k] in sizes {
              if k > 0 { assert files[k] == files[1..][k - 1]; }
            }
          }
          var kept := r.value;
          if sizes[files[0]] as real > Threshold(minSize) {
            assert kept == [files[0]] + rest.value;
            assert kept[1..] == rest.value;
          } else {
            assert kept == rest.value;
            SubsequenceDrop(kept, files);
          }
          assert files == [files[0]] + files[1..];
        }
      }
    }
  }

  /** A worked example of the size threshold: with a 500 MiB minimum, files
      of 50, 600 and 1200 MiB keep the last two. */
  lemma KeepLargeExample()
    ensures var mib := 1024 * 1024;
      KeepLarge(["/downloads/a", "/downloads/b", "/downloads/c"],
                map["/downloads/a" := 50 * mib, "/downloads/b" := 600 * mib, "/downloads/c" := 1200 * mib],
                500.0)
      == Ok(["/downloads/b", "/downloads/c"])
  {
    var mib := 1024 * 1024;
    var sizes := map["/downloads/a" := 50 * mib, "/downloads/b" := 600 * mib, "/downloads/c" := 1200 * mib];
    var t := Threshold(500.0);
    assert t == 524288000.0;
    assert sizes["/downloads/c"] as real > t && sizes["/downloads/b"] as real > t;
    assert !(sizes["/downloads/a"] as real > t);
    assert ["/downloads/c"][1..] == [];
    assert KeepLarge([], sizes, 500.0) == Ok([]);
    assert ["/downloads/c"] + [] == ["/downloads/c"];
    assert KeepLarge(["/downloads/c"], sizes, 500.0) == Ok(["/downloads/c"]);
    assert ["/downloads/b", "/downloads/c"][1..] == ["/downloads/c"];
    assert ["/downloads/b"] + ["/downloads/c"] == ["/downloads/b", "/downloads/c"];
    assert KeepLarge(["/downloads/b", "/downloads/c"], sizes, 500.0) == Ok(["/downloads/b", "/downloads/c"]);
    assert ["/downloads/a", "/downloads/b", "/downloads/c"][1..] == ["/downloads/b", "/downloads/c"];
    assert [] + ["/downloads/b", "/downloads/c"] == ["/downloads/b", "/downloads/c"];
  }

  /** What the scripts hold after `download(target, '/downloads')` and
      `listFiles('/downloads').filter(...)`: the kept files, or the reason the
      run throws (a failed downloader, a missing scratch directory, a file
      that cannot be sized). */
  function Gathered(minSize: real, w: World): (r: Result<seq<string>, Failure>)
    ensures r.Ok? ==> DownloadSettles(w.downloadExit) && w.downloads.Some?
    ensures !DownloadSettles(w.downloadExit) ==> r == Err(DownloadFailed)
  {
    if !DownloadSettles(w.downloadExit) then Err(DownloadFailed)
    else if w.downloads.None? then Err(NoScratchDir)
    else KeepLarge(ListFiles(DownloadDir, w.downloads.value), w.sizes, minSize)
  }

  /** Every kept file is a regular file of the downloaded tree, strictly
      larger than `minSize` MiB, and they come in listing order. */
  lemma GatheredSpec(minSize: real, w: World)
    requires Gathered(minSize, w).Ok?
    ensures var kept := Gathered(minSize, w).value;
      && Subsequence(kept, ListFiles(DownloadDir, w.downloads.value))
      && forall p :: p in kept <==>
           IsFilePath(DownloadDir, w.downloads.value, p) && p in w.sizes && w.sizes[p] as real > Threshold(minSize)
  {
    var files := ListFiles(DownloadDir, w.downloads.value);
    KeepLargeSpec(files, w.sizes, minSize);
    forall p ensures p in files <==> IsFilePath(DownloadDir, w.downloads.value, p) {
      ListFilesExactly(DownloadDir, w.downloads.value, p);
    }
  }

  // ---------------------------------------------------------------------------
  // Storage keys

  /** `${prefix}/${code}/${index + 1}${path.extname(src)}` */
  function UploadKey(prefix: string, code: string, index: nat, src: string): string {
    prefix + "/" + code + "/" + NatToString(index + 1) + ExtName(src)
  }

  /** The number of leading digits of `s`. */
  function DigitRun(s: string): (n: nat)
    ensures n <= |s|
  {
    if s != [] && IsDigit(s[0]) then 1 + DigitRun(s[1..]) else 0
  }

  /** Digits followed by an empty or dot-led suffix: the digit run is exactly
      the digits. */
  lemma {:induction false} DigitRunOfDigits(d: string, e: string)
    requires AllDigits(d)
    requires e == [] || e[0] == '.'
    ensures DigitRun(d + e) == |d|
    decreases |d|
  {
    if d == [] {
      assert d + e == e;
    } else {
      assert (d + e)[1..] == d[1..] + e;
      DigitRunOfDigits(d[1..], e);
    }
  }

  /** A digit string followed by an empty or dot-led suffix can be split back
      into the two parts. */
  lemma DigitsThenExtension(d1: string, e1: string, d2: string, e2: string)
    requires AllDigits(d1) && AllDigits(d2)
    requires e1 == [] || e1[0] == '.'
    requires e2 == [] || e2[0] == '.'
    requires d1 + e1 == d2 + e2
    ensures d1 == d2
  {
    DigitRunOfDigits(d1, e1);
    DigitRunOfDigits(d2, e2);
    assert d1 == (d1 + e1)[..|d1|];
    assert d2 == (d2 + e2)[..|d2|];
  }

  /** Two keys with one head, whose tails are digits followed by an empty
      or dot-led suffix, are equal only if their digits are. */
  lemma SameHeadDigits(head: string, d1: string, e1: string, d2: string, e2: string)
    requires AllDigits(d1) && AllDigits(d2)
    requires e1 == [] || e1[0] == '.'
    requires e2 == [] || e2[0] == '.'
    requires head + d1 + e1 == head + d2 + e2
    ensures d1 == d2
  {
    assert head + d1 + e1 == head + (d1 + e1);
    assert head + d2 + e2 == head + (d2 + e2);
    assert d1 + e1 == (head + (d1 + e1))[|head|..];
    assert d2 + e2 == (head + (d2 + e2))[|head|..];
    DigitsThenExtension(d1, e1, d2, e2);
  }

  /** Different numbers after one head, each followed by an empty or
      dot-led suffix, give different strings. */
  lemma NumberedDistinct(head: string, m: nat, n: nat, e1: string, e2: string)
    requires m != n
    requires e1 == [] || e1[0] == '.'
    requires e2 == [] || e2[0] == '.'
    ensures head + NatToString(m) + e1 != head + NatToString(n) + e2
  {
    var d1, d2 := NatToString(m), NatToString(n);
    if head + d1 + e1 == head + d2 + e2 {
      NatToStringRoundTrip(m);
      NatToStringRoundTrip(n);
      SameHeadDigits(head, d1, e1, d2, e2);
      NatToStringInjective(m, n);
    }
  }

  /** Files at different positions of one upload batch get different keys,
      whatever their names: one run never overwrites its own uploads. */
  lemma UploadKeysDistinct(prefix: string, code: string, i: nat, j: nat, src1: string, src2: string)
    requires i != j
    ensures UploadKey(prefix, code, i, src1) != UploadKey(prefix, code, j, src2)
  {
    NumberedDistinct(prefix + "/" + code + "/", i + 1, j + 1, ExtName(src1), ExtName(src2));
  }

  /** The keys of a batch of files, in file order. */
  function UploadKeys(prefix: string, code: string, files: seq<string>): (keys: seq<string>)
    ensures |keys| == |files|
    ensures forall i :: 0 <= i < |files| ==> keys[i] == UploadKey(prefix, code, i, files[i])
  {
    seq(|files|, i requires 0 <= i < |files| => UploadKey(prefix, code, i, files[i]))
  }

  /** No two files of a batch share a key. */
  lemma UploadKeysAllDistinct(prefix: string, code: string, files: seq<string>)
    ensures var keys := UploadKeys(prefix, code, files);
      forall i, j :: 0 <= i < j < |files| ==> keys[i] != keys[j]
  {
    var keys := UploadKeys(prefix, code, files);
    forall i, j | 0 <= i < j < |files| ensures keys[i] != keys[j] {
      UploadKeysDistinct(prefix, code, i, j, files[i], files[j]);
    }
  }

  /** The public URLs of the listed object names under `prefix/code/`, in
      listing order. */
  function ListingUrls(bucket: string, region: string, prefix: string, code: string, names: seq<string>): (urls: seq<string>)
    ensures |urls| == |names|
    ensures forall i :: 0 <= i < |names| ==> urls[i] == MakeS3Url(bucket, region, prefix + "/" + code + "/" + names[i])
  {
    seq(|names|, i requires 0 <= i < |names| => MakeS3Url(bucket, region, prefix + "/" + code + "/" + names[i]))
  }
}
