# power-plant media acquisition, modelled in Dafny

power-plant keeps a catalog of products, the `Product` rows of its Prisma
schema. Three batch scripts fill in a product's media:

- `batch/download.ts` downloads the product's torrent with aria2c. It uploads
  every file larger than a minimum size to S3 under `KEY_PREFIX/code/`, then
  records the objects listed there as the product's `mediaUrls`.
- `batch/script.ts` is its older, self-contained predecessor. It records the
  URLs the uploads resolve with and does not list the bucket.
- `batch/compression.ts` downloads one file and transcodes the first file
  found with ffmpeg. It uploads the result with its probed metadata, then
  records the listing.

The web app starts these scripts as AWS Batch jobs and lists them
(`remix/app/utils/aws.server.ts`). It parses and builds S3 object URLs
(`remix/app/utils/aws.ts`), shortens product codes (`sku.ts`), merges cast
lists from several sites (`casts.server.ts`) and caches computations in a
key-value namespace (`kv.server.ts`).

The model keeps each part in the source's own form.

- **The three `main` functions.** Each is a pure specification function
  (`DownloadRun`, `ScriptRun`, `CompressionRun`). Given the record store,
  the arguments, the environment and the outcomes of the external tools,
  it returns the trace of steps the run performs and how the run ends.
  Each also has a `RunMain` method that does the same step by step against
  a `ProductStore` object. `RunMain` is proved to produce that trace and to
  leave the store as replaying the trace's writes would.
- **External tools.** Exit codes, directory contents, file sizes, probe
  results and listing output are fields of a `World` value fixed in
  advance.
- **Output handlers.** The handlers the scripts attach to child processes
  keep state between `data` events. They are classes whose console is a
  sequence, each tied by its invariant to a reference function of the
  chunks received.
- **Key-value cache.** `cacheable` is a method of a class holding the
  namespace as a map.
- **Everything else.** The rest is pure and is modelled as functions with
  lemmas.

Modules, one per file:

| module | file | models |
|---|---|---|
| `Strings` | strings.dfy | character classes, decimal rendering of numbers, `split`/`join` |
| `Paths` | paths.dfy | Node's `path.basename`, `extname` and `dirname` as the scripts use them |
| `Libraries` | libraries.dfy | `batch/libraries.ts` |
| `LogFilters` | logfilters.dfy | the `data` handlers of every child process |
| `Records` | records.dfy | the Product row, partial updates, the Product table |
| `Acquisition` | acquisition.dfy | what the three scripts share: arguments, environment, traces, the size filter, upload keys |
| `DownloadScript` | download.dfy | `batch/download.ts` |
| `Script` | script.dfy | `batch/script.ts` |
| `Compression` | compression.dfy | `batch/compression.ts` |
| `Jobs` | jobs.dfy | job submission and listing in `remix/app/utils/aws.server.ts` |
| `S3Url` | s3url.dfy | `remix/app/utils/aws.ts` and its copy in `aws.server.ts` |
| `Sku` | sku.dfy | `remix/app/utils/sku.ts` |
| `Casts` | casts.dfy | `mergeCasts` of `remix/app/utils/casts.server.ts` |
| `Kv` | kv.dfy | `remix/app/utils/kv.server.ts` |

Points where the code's behaviour is easy to misread:

- **Size filter.** A file is kept only when it is strictly larger than the
  minimum size; a file of exactly the minimum is dropped.
- **`isDownloaded` with no media.** `batch/script.ts` marks the record
  downloaded even when no file passed the filter, so its media list ends
  up empty (`Script.EmptyBatchStillDownloaded`). `batch/download.ts`
  records whatever the listing holds, which can also be empty.
- **Download job duration.** The download job's `attemptDurationSeconds`
  is `3600 * 0.45`. That is 1620 seconds (27 minutes), exactly so in
  double precision, although the comment beside it says 45 minutes.
- **URL helpers do not pair up.** `getBucketAndKeyFromURL` parses the
  virtual-hosted-style URLs that `makeS3Url` builds. It does not parse the
  path-style URLs that `getURLFromBucketAndKey` builds
  (`S3Url.PathStyleNotParsed`).

## Model

| member | source | states |
|---|---|---|
| Records.NewProduct | remix/app/sb-prisma/index.ts:63-317 | a fresh Product has the schema defaults: not downloaded, not processing, not liked, no media, no download URL |
| Records.Apply | remix/app/sb-prisma/index.ts:63-317 | a partial update writes exactly the fields present and keeps id, code, downloadUrl and every other field |
| Records.Lookup | batch/download.ts:20-21 | `findUnique` by id finds a record iff one is filed under that id, and returns it |
| Records.UpdateKeepsWellFormed | remix/app/sb-prisma/index.ts:63-317 | an update never changes id or code, so the store stays keyed by id with unique codes |
| Records.ProductStore.constructor | remix/app/sb-prisma/index.ts:63-317 | the table starts with the given rows |
| Records.ProductStore.FindUnique | batch/download.ts:20 | returns the record with that id, or none |
| Records.ProductStore.Update | batch/download.ts:24 | writes the present fields of the one record with that id, reports whether it existed, keeps the store well formed |
| Libraries.ListFilesLength | batch/libraries.ts:39-44 | the listing has one path per regular file of the tree |
| Libraries.ListFilesExactly | batch/libraries.ts:39-44 | a path is listed iff it names a regular file somewhere below the directory; no directory is listed |
| Libraries.ListFilesAppend | batch/libraries.ts:39-44 | the listing is depth-first in directory order: consecutive runs of entries list as the concatenation of their listings |
| Libraries.ListFilesUnder | batch/libraries.ts:39-44 | every listed path starts with `dir/` |
| Libraries.Scan | batch/libraries.ts:92-116 | a failed probe gives the empty object; a successful one gives the six named fields, codec first and bitRate last |
| Libraries.ReduceIsPrinted | batch/libraries.ts:118-126 | the reducer keeps exactly the string and number entries, rendered `k=v`, in entry order |
| Libraries.FormatForMetaSpec | batch/libraries.ts:118-128 | the metadata string is the comma-join of the printable pairs; the empty object gives "" |
| Libraries.FailedScanFormatsEmpty | batch/libraries.ts:111-115 | when probing fails, the upload's metadata is the empty string |
| Libraries.FormatForMetaSplits | batch/libraries.ts:118-128 | when no pair holds a comma, splitting the metadata string on ',' gives back the pairs one by one |
| Libraries.MakeS3Url | batch/libraries.ts:130-131 | the public URL is virtual-hosted style: `https://<bucket>.s3.` then the region |
| Libraries.FileListOnS3 | batch/libraries.ts:133-156 | the listing resolves iff the shell reported no error and nothing was written to stderr |
| Libraries.ParseListingLines | batch/libraries.ts:152 | every name obtained is a non-empty line |
| Libraries.NonEmptyKeeps | batch/libraries.ts:152 | `filter(Boolean)` keeps only non-empty lines, each one taken from the input |
| Libraries.ParseListingRoundTrip | batch/libraries.ts:138-152 | parsing the text of one name per line gives back the names in listing order |
| Libraries.DownloadSettles | batch/libraries.ts:32-36 | the download resolves iff aria2c exits with code 0; a kill (null code) rejects |
| Libraries.UploadSettles | batch/libraries.ts:84-88 | the upload resolves iff `aws s3 mv` exits with 0, and then with `makeS3Url(bucket, key)` |
| LogFilters.DedupLogSnoc | batch/libraries.ts:25-30 | one more chunk is printed iff it differs from the chunk received just before |
| LogFilters.DedupLogNoRepeats | batch/libraries.ts:25-30 | the printed log never repeats a chunk twice in a row, nor starts with the initial '' |
| LogFilters.DedupLogIdempotent | batch/libraries.ts:25-30 | filtering an already filtered log changes nothing |
| LogFilters.DedupLogKeepsChanges | batch/libraries.ts:77-82 | a stream whose every chunk differs from the previous one is printed entirely |
| LogFilters.DedupSink.constructor | batch/libraries.ts:25 | the handler starts with '' as the previous chunk and prints nothing |
| LogFilters.DedupSink.OnData | batch/libraries.ts:26-30 | prints the chunk iff it differs from the previous one; the console stays equal to the reference log of all chunks |
| LogFilters.UploadExpectedSnoc | batch/libraries.ts:70-75 | chunk number n prints once more if it holds "move:", and again if n % 1001 == 1000 |
| LogFilters.UploadThrottleCount | batch/libraries.ts:69-75 | of n chunks without "move:", the throttle prints exactly n / 1001 |
| LogFilters.UploadStdoutSink.constructor | batch/libraries.ts:69 | the counter starts at 0 with nothing printed |
| LogFilters.UploadStdoutSink.OnData | batch/libraries.ts:70-75 | prints the chunk if it holds "move:", and again when it is chunk number n with n % 1001 == 1000; keeps the console equal to the reference log and the counter equal to the chunk count modulo 1001 |
| LogFilters.FrameExpectedSnoc | batch/compression.ts:35-44 | a non-progress chunk is always printed; progress chunk number n is printed iff n % 31 == 30 |
| LogFilters.FrameExpectedKeepsMessages | batch/compression.ts:35-44 | without progress lines, every chunk is printed in order |
| LogFilters.FrameSink.constructor | batch/compression.ts:35 | the frame counter starts at 0 with nothing printed |
| LogFilters.FrameSink.OnData | batch/compression.ts:35-44 | prints every non-progress chunk, and a progress chunk only when the counter has reached 30; keeps the console equal to the reference log and the counter equal to the progress count modulo 31 |
| LogFilters.SummaryLogExactly | batch/libraries.ts:20-23 | a stdout chunk of aria2c reaches the console iff it holds "Summary" |
| Paths.LastIndexFromSpec | batch/download.ts:41 | the separator found is the last one, and none is found only when there is none |
| Paths.BasenameSpec | batch/compression.ts:14-17 | the base name holds no '/', and a name without '/' is its own base name |
| Paths.ExtName | batch/download.ts:41 | the extension is empty or starts with '.' |
| Paths.StemAndExt | batch/compression.ts:14-17 | stem and extension put together give back the base name |
| Paths.BasenameOfChild | batch/libraries.ts:42 | the base name of `dir/name` is `name` |
| Paths.DirnameOfChild | batch/compression.ts:14 | the directory of `dir/name` is `dir` |
| Strings.NatToStringRoundTrip | batch/download.ts:41 | `${index + 1}` is a non-empty digit string without a leading zero whose value is the number |
| Strings.NatToStringInjective | batch/download.ts:41 | different numbers render differently |
| Strings.SplitJoin | batch/libraries.ts:152 | the parts of `split(c)` hold no c and joined by c give back the text |
| Strings.JoinSplit | batch/libraries.ts:127 | joining c-free parts with c and splitting on c gives back the parts |
| Acquisition.ToNumber | batch/download.ts:15 | `Number` of a decimal digit string is its value |
| Acquisition.ReplayAppend | batch/download.ts:24-62 | replaying a trace's writes in two pieces is replaying it whole |
| Acquisition.ReplayNoWrites | batch/download.ts:32-48 | steps of the external tools leave the store as it was |
| Acquisition.ReplayKeepsWellFormed | batch/download.ts:24-62 | the writes of a run keep the store keyed by id with unique codes, and keep its set of ids |
| Acquisition.ClaimedRun | batch/download.ts:24-62 | claim, external steps, closing write: only the record is changed, by the closing write over the claim |
| Acquisition.ClaimedOutcome | batch/download.ts:50-60 | on success the record gets the new media, downloaded and released; on failure it is exactly as found; no other record changes |
| Acquisition.KeepLargeSpec | batch/download.ts:35-37 | the filter fails iff some listed path has no size, naming the first one; otherwise it keeps, in order, exactly the files strictly larger than minSize MiB |
| Acquisition.KeepLargeExample | batch/script.ts:151-153 | with a 500 MiB minimum, files of 50, 600 and 1200 MiB keep the last two |
| Acquisition.Gathered | batch/download.ts:33-37 | a failed download throws before anything is listed; a kept list exists only after a successful download into an existing directory |
| Acquisition.GatheredSpec | batch/download.ts:33-37 | the kept files are regular files of the downloaded tree, larger than the minimum, in listing order |
| Acquisition.NumberedDistinct | batch/download.ts:41 | different numbers after one head, each followed by an extension, give different keys |
| Acquisition.UploadKeysDistinct | batch/download.ts:39-44 | files at different positions of a batch get different keys whatever their names |
| Acquisition.UploadKeys | batch/download.ts:41 | file i of the batch goes to `prefix/code/(i+1)ext` |
| Acquisition.UploadKeysAllDistinct | batch/download.ts:39-44 | no two files of one batch share a key, so a run never overwrites its own uploads |
| Acquisition.ListingUrls | batch/download.ts:46-48 | listed name i becomes the public URL of `prefix/code/name`, in listing order |
| DownloadScript.UploadSteps | batch/download.ts:39-44 | one upload per kept file, file i to key i, in file order |
| DownloadScript.UploadAll | batch/download.ts:39-44 | starts the uploads in file order and reports that all of them succeeded iff every upload exits with 0 |
| DownloadScript.Acquire | batch/download.ts:32-53 | performs the `try` block step by step, with the steps and result of its specification |
| DownloadScript.RunMain | batch/download.ts:13-63 | performs `main` on the store: returns the specified trace and leaves the store as replaying its writes gives |
| DownloadScript.TryBlockExternal | batch/download.ts:32-48 | the `try` block reads and writes no record |
| DownloadScript.ArgumentsCheckedFirst | batch/download.ts:14-18 | nothing happens iff the id is missing or the size is not a positive number; the default size is 400 MiB |
| DownloadScript.NotReadyWritesNothing | batch/download.ts:20-23 | a missing record, no download URL, or a run in flight throws after the lookup with nothing written |
| DownloadScript.FlagBeforeDownload | batch/download.ts:24-33 | the flag is written before the download, which fetches the record's URL into /downloads |
| DownloadScript.TryBlockUploads | batch/download.ts:33-44 | the uploads come right after the download, one per kept file, in file order |
| DownloadScript.KeysAndOrder | batch/download.ts:35-44 | in the run, kept file i is uploaded under `prefix/code/(i+1)ext` right after the download, and no two keys coincide |
| DownloadScript.FinalState | batch/download.ts:32-62 | the run completes iff every external step succeeds; then the record's media are the URLs of the listing, it is downloaded and released; a failure leaves it as found; no other record changes |
| DownloadScript.FlagRestored | batch/download.ts:22-60 | whatever the external tools do, the record's `isProcessing` ends as it was found |
| Script.UploadSteps | batch/script.ts:84-126 | one upload per kept file, file i to key i |
| Script.UrlsBelow | batch/script.ts:116-123 | URL i is the public URL of key i |
| Script.SettleNext | batch/script.ts:84-126 | `Promise.all` folds the settled uploads in key order: rejects if any rejects, else resolves with URL i for key i |
| Script.Mp4Name | batch/script.ts:42 | `<index>.mp4` has no separator and the extension ".mp4" |
| Script.CompressedPathShape | batch/script.ts:41-42 | the transcoded file is `<index>.mp4` in the source's directory |
| Script.UploadAll | batch/script.ts:84-126 | starts the uploads in file order and settles like `Promise.all` of them |
| Script.Acquire | batch/script.ts:141-158 | performs the `try` block step by step, with the steps and result of its specification |
| Script.RunMain | batch/script.ts:128-167 | performs `main` on the store: returns the specified trace and leaves the store as replaying its writes gives |
| Script.TryBlockExternal | batch/script.ts:141-154 | the `try` block reads and writes no record |
| Script.ArgumentsCheckedFirst | batch/script.ts:129-133 | nothing happens iff the id is missing or the size is not a positive number; the default size is 500 MiB |
| Script.NotReadyWritesNothing | batch/script.ts:135-139 | a missing or unready record throws after the lookup with nothing written |
| Script.FinalState | batch/script.ts:141-166 | the run completes iff download, sizing and every upload succeed; then the media are URL i for kept file i, downloaded and released; a failure leaves the record as found; nothing else changes |
| Script.EmptyBatchStillDownloaded | batch/script.ts:151-158 | when no file passes the filter, the run completes with no media and marks the record downloaded |
| Script.FlagRestored | batch/script.ts:135-166 | whatever the external tools do, the record's `isProcessing` ends as it was found |
| Compression.FirstFile | batch/compression.ts:72 | `const [file] = listFiles(...)`: some file iff the listing is non-empty, and then its first path |
| Compression.PublishSteps | batch/compression.ts:73-80 | transcodes, uploads and lists step by step, with the steps and result of its specification |
| Compression.Acquire | batch/compression.ts:70-84 | performs the `try` block step by step, with the steps and result of its specification |
| Compression.RunMain | batch/compression.ts:54-91 | performs `main` on the store: returns the specified trace and leaves the store as replaying its writes gives |
| Compression.PublishShape | batch/compression.ts:73-80 | transcoding comes first and only once; on success the upload of the transcoded file under `prefix/code/<base name>` with its metadata follows; no record is touched |
| Compression.TryBlockExternal | batch/compression.ts:70-80 | the `try` block reads and writes no record |
| Compression.CompressedName | batch/compression.ts:14-17 | `<stem>.compressed.mp4` has no separator and the extension ".mp4" |
| Compression.CompressedPathShape | batch/compression.ts:13-17 | the output keeps the target's directory and stem, named `<stem>.compressed.mp4` |
| Compression.ArgumentsCheckedFirst | batch/compression.ts:55-59 | nothing happens iff the id or the target URL is missing, each with its own error |
| Compression.MissingRecordWritesNothing | batch/compression.ts:61-62 | with both arguments given, a missing record throws `No record` for that id right after the lookup, with nothing written |
| Compression.TryBlockFirstFile | batch/compression.ts:71-75 | the first file found is the one transcoded, once, and the upload after it carries the transcoded file |
| Compression.RunShape | batch/compression.ts:61-84 | a run looks the record up, performs the `try` block and writes the media only when it succeeds |
| Compression.FirstFileOnly | batch/compression.ts:71-73 | in the run, only the first file found is transcoded, once, right after the lookup and the download |
| Compression.TranscodedUploaded | batch/compression.ts:73-75 | when transcoding succeeds, the next step uploads the transcoded file under `prefix/code/<its base name>` |
| Compression.FinalState | batch/compression.ts:61-90 | the run completes iff every external step succeeds, and then only the record's media change, to the listing's URLs; a failure writes nothing |
| Compression.FlagsIgnored | batch/compression.ts:61-84 | the run does the same whatever the record's flags, and leaves them as they were |
| Jobs.ParseStatus | remix/app/utils/aws.server.ts:89-96 | a status read from a name prints back as that name |
| Jobs.Duration | remix/app/utils/aws.server.ts:133 | a duration exists iff both timestamps are truthy, and then created plus duration is stopped |
| Jobs.JobList | remix/app/utils/aws.server.ts:129-134 | one summary per listed job, in order, with its base fields, the job type and its duration |
| Jobs.DownloadJobRoundTrip | remix/app/utils/aws.server.ts:11-34 | the download job is named after the product, listing filters on that name and queue, and it runs `/download.ts id` for 1620 s |
| Jobs.CompressionJobRoundTrip | remix/app/utils/aws.server.ts:36-61 | the compression job is named after the product, listed on the queue it was sent to, and runs `/compression.ts id url` for 3600 s |
| Jobs.JobNamesDistinct | remix/app/utils/aws.server.ts:15 | different products get different job names, and download and compression names never coincide |
| Jobs.StatusNamesRoundTrip | remix/app/utils/aws.server.ts:89-96 | the seven statuses have distinct names, each read back as its status |
| Jobs.JobListDurations | remix/app/utils/aws.server.ts:133 | a job without both timestamps has no duration; otherwise it is stopped minus created, negative only if it stopped before it was created |
| S3Url.GetBucketAndKeyFromURL | remix/app/utils/aws.ts:1-4 | bucket and key are both found or both undefined |
| S3Url.GetURLFromBucketAndKey | remix/app/utils/aws.ts:6-12 | the URL is path style: `https://s3.` then the region |
| S3Url.MatchFromSound | remix/app/utils/aws.ts:2 | a match captures a non-empty bucket after "https://" and before ".s3", and a non-empty key after a '/' running to the end of its line |
| S3Url.NoS3NoMatch | remix/app/utils/aws.ts:2 | a text holding no ".s3" never matches |
| S3Url.NoS3Undefined | remix/app/utils/aws.server.ts:63-66 | a URL holding no ".s3" parses to `[undefined, undefined]` |
| S3Url.UrlSkipsLongerBuckets | remix/app/utils/aws.ts:2 | the greedy bucket search skips every end past the real bucket's in a `makeS3Url` URL |
| S3Url.UrlBucketEnd | remix/app/utils/aws.ts:2 | in a `makeS3Url` URL, the bucket ends right before ".s3", the host and the '/' before the key |
| S3Url.RoundTrip | remix/app/utils/aws.ts:1-4 | parsing `makeS3Url(bucket, key)` gives back bucket and key, for non-empty one-line parts whose region and key hold no ".s3" and whose region holds no '/' |
| S3Url.KeyMayHoldSlashes | remix/app/utils/aws.ts:2 | a key holding '/' comes back whole |
| S3Url.PathStyleSegments | remix/app/utils/aws.ts:6-12 | for every region, the URL's path segments are the scheme, "", the host `s3.<region>.amazonaws.com`, the bucket, then the key's segments, so region, bucket and key read back when region and bucket hold no '/' |
| S3Url.DefaultRegionUsed | remix/app/utils/aws.ts:9-11 | without a region the URL names ap-northeast-1 |
| S3Url.PathStyleNotParsed | remix/app/utils/aws.ts:1-12 | `getBucketAndKeyFromURL` does not read back a path-style URL of `getURLFromBucketAndKey` |
| Sku.StripSKU | remix/app/utils/sku.ts:1-3 | a leading "SP-" is removed once; any other code is kept |
| Sku.StripExactlyOne | remix/app/utils/sku.ts:2 | exactly one marker is removed, so "SP-SP-x" keeps its second marker |
| Sku.ShortIgnoresMarker | remix/app/utils/sku.ts:5-9 | a marked SKU and its unmarked code have the same short form |
| Sku.MatchAtSound | remix/app/utils/sku.ts:7 | a match at a start is digits, letters, '-', and the whole digit run after it |
| Sku.FoundBy | remix/app/utils/sku.ts:7 | a pattern substring anywhere later makes the search succeed, with letters starting no later |
| Sku.NoMatchIffNoPattern | remix/app/utils/sku.ts:7 | the search fails iff the code holds no substring digits, letters, '-', digits |
| Sku.ShortEmptyIffNoPattern | remix/app/utils/sku.ts:5-9 | the short form is "" iff the stripped code holds no such substring |
| Sku.MatchIsLeftmost | remix/app/utils/sku.ts:7 | the search finds the leftmost pattern substring, with its whole letter run and whole digit run |
| Sku.ShortOfMatch | remix/app/utils/sku.ts:8 | a non-empty short form is the match's letters, '-', and its digits |
| Sku.ShortForm | remix/app/utils/sku.ts:5-9 | a non-empty short form is `L-D` from the leftmost pattern substring of the stripped code |
| Sku.MatchFromSound | remix/app/utils/sku.ts:7 | what the leftmost search returns describes letters, '-' and the whole digit run |
| Casts.Unnamed | remix/app/utils/casts.server.ts:47-53 | the filter keeps, in order, each cast whose name is not taken as many times as it occurs, and no other cast |
| Casts.MergeCasts | remix/app/utils/casts.server.ts:47-53 | the first list comes first unchanged, followed in order by the casts of the second whose name the first lacks, each as many times as the second holds it |
| Casts.MergeIdentities | remix/app/utils/casts.server.ts:47-53 | merging with an empty list on either side gives the other list |
| Casts.MergeMembership | remix/app/utils/casts.server.ts:47-53 | a cast not in the first list is in the merge iff it is in the second and its name is not in the first |
| Casts.MergeIdempotent | remix/app/utils/casts.server.ts:47-53 | merging the same second list again adds nothing |
| Casts.DuplicatesKept | remix/app/utils/casts.server.ts:47-53 | for any lists, a cast whose name the first lacks appears in the merge exactly as often as in the first list plus the second: repeats are not removed |
| Kv.Cached | remix/app/utils/kv.server.ts:7-28 | specification of one `cacheable` call: result returned, whether `org` ran, namespace afterwards |
| Kv.KvStore.constructor | remix/app/utils/kv.server.ts:7 | the namespace starts with the given entries |
| Kv.KvStore.Get | remix/app/utils/kv.server.ts:12 | the stored value, or null when there is none |
| Kv.KvStore.Put | remix/app/utils/kv.server.ts:23-26 | stores the value with its options under the key and changes nothing else |
| Kv.KvStore.Cacheable | remix/app/utils/kv.server.ts:7-28 | returns and stores exactly what `Cached` specifies |
| Kv.HitReturnsStored | remix/app/utils/kv.server.ts:13-16 | a truthy stored value is returned without running `org` and without writing |
| Kv.FalsyIsMiss | remix/app/utils/kv.server.ts:13-18 | a stored null, false, 0 or "" behaves like a missing key |
| Kv.MissComputes | remix/app/utils/kv.server.ts:18-27 | on a miss `org` runs and its result is returned, stored under the key iff the options do not say `cacheable: false`; no other key changes |
| Kv.StoredThenHit | remix/app/utils/kv.server.ts:7-28 | without options a truthy result is stored, and the next call returns it without running `org` |

## Left out

- Child processes, streams and shell strings are not modelled. Their exit
  codes and outputs are inputs, and the 30-minute spawn timeout is only a
  `null` exit code. The console lines the scripts print outside the
  handlers are not modelled.
- `Promise.all` concurrency is not modelled. Every upload of a batch is
  modelled as started, in file order, and the batch fails when any upload
  fails. The order in which uploads finish, and uploads still running
  after a rejection, are not modelled.
- Acquisition.ToNumber: only plain decimal notation is modelled. Other
  forms `Number` accepts (exponents, hexadecimal, surrounding whitespace,
  signs) are read as NaN, which the scripts reject like a non-positive
  size.
- Float arithmetic is not modelled. The size threshold is an exact real.
  The probe's frame rate is taken as already divided, and the ffprobe call
  itself is an input.
- `bytesToSize` is not part of this model.
- Records.ProductStore: every store call succeeds and runs on one record never overlap. In the source, a failing `prisma.product.update` in a `catch` block (batch/download.ts:57-60, batch/script.ts:161-164) leaves `isProcessing` true, and a failing final write is caught and followed by the reset. The lookup and the claim (batch/download.ts:20-24) are not atomic, so two jobs for one id can both pass the check. `FlagRestored` holds only under these assumptions.
- Records.ProductStore: timestamps (`updatedAt`) and every column the
  scripts never read or write are not modelled. A `null` `isProcessing` is
  modelled as false, which is how every test of it reads it.
- Libraries.ListFiles: a directory entry is either a regular file or a
  directory. Symbolic links and other entry kinds are not modelled; the
  source recurses into them as if they were directories.
- Trailing-slash paths are not modelled by `Paths`; no path the scripts
  build ends in '/'.
- Libraries.ParseListing: the `aws s3 ls | awk '{print $4}'` pipeline is
  not modelled. The model starts from the text awk prints, so object names
  holding spaces are not modelled.
- `compression` in `batch/script.ts` is not called by that script's `main`.
  Only its output path is modelled (`Script.CompressedPathShape`).
- Kv.KvStore.Cacheable: `org` is a promise the caller already started, so
  it is modelled as the value it produces. The `JSON.stringify` /
  `JSON.parse` round trip through the namespace is taken as the identity.
  Expiry of stored entries is not modelled.
- `casts.server.ts`: only `mergeCasts` is modelled. The HTML scraping that
  produces the cast lists is network I/O.
- Jobs: the HTTP requests and their signing are not modelled; the model
  states the request contents only.
- Not part of this model: network calls, HTML scraping, the UI, sessions
  and authentication, `random.ts`, `handler.ts`, and the transmission
  client.
