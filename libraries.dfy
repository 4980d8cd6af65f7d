/** The shared helpers of the batch scripts (batch/libraries.ts): the recursive
    file listing, the metadata string handed to `aws s3 mv --metadata`, the
    public URL of an uploaded object, the parsing of an `aws s3 ls` listing, and
    how the exit code of each child process settles its promise. The child
    processes themselves are not modelled: their exit codes and outputs are
    inputs. */
module Libraries {
  import opened Strings

  // ---------------------------------------------------------------------------
  // listFiles

  /** A directory entry as `fs.readdirSync(dir, { withFileTypes: true })`
      reports it, in directory order. */
  datatype Entry = File(name: string) | Directory(name: string, entries: seq<Entry>)

  /** `listFiles(dir)`: a regular file contributes `dir/name`, a directory the
      listing of its own contents, concatenated in directory order. */
  function ListFiles(dir: string, entries: seq<Entry>): seq<string>
    decreases entries, 1
  {
    if entries == [] then [] else ListEntry(dir, entries[0]) + ListFiles(dir, entries[1..])
  }

  function ListEntry(dir: string, e: Entry): seq<string>
    decreases e, 0
  {
    match e
    case File(name) => [dir + "/" + name]
    case Directory(name, sub) => ListFiles(dir + "/" + name, sub)
  }

  /** Number of regular files anywhere below the entries. */
  function FileCount(entries: seq<Entry>): nat
    decreases entries, 1
  {
    if entries == [] then 0 else EntryFileCount(entries[0]) + FileCount(entries[1..])
  }

  function EntryFileCount(e: Entry): nat
    decreases e, 0
  {
    match e
    case File(_) => 1
    case Directory(_, sub) => FileCount(sub)
  }

  /** `p` names a regular file of the tree below `dir`: some entry is that file,
      or a directory holding it. */
  ghost predicate IsFilePath(dir: string, entries: seq<Entry>, p: string)
    decreases entries, 1
  {
    exists i :: 0 <= i < |entries| && EntryHoldsFile(dir, entries[i], p)
  }

  ghost predicate EntryHoldsFile(dir: string, e: Entry, p: string)
    decreases e, 0
  {
    match e
    case File(name) => p == dir + "/" + name
    case Directory(name, sub) => IsFilePath(dir + "/" + name, sub, p)
  }

  /** The listing has one path per regular file of the tree. */
  lemma {:induction false} ListFilesLength(dir: string, entries: seq<Entry>)
    ensures |ListFiles(dir, entries)| == FileCount(entries)
    decreases entries, 1
  {
    if entries != [] {
      ListEntryLength(dir, entries[0]);
      ListFilesLength(dir, entries[1..]);
    }
  }

  lemma {:induction false} ListEntryLength(dir: string, e: Entry)
    ensures |ListEntry(dir, e)| == EntryFileCount(e)
    decreases e, 0
  {
    match e
    case File(_) =>
    case Directory(name, sub) => ListFilesLength(dir + "/" + name, sub);
  }

  /** The listing holds exactly the paths of the regular files: nothing that
      names a directory, and no file left out. */
  lemma {:induction false} ListFilesExactly(dir: string, entries: seq<Entry>, p: string)
    ensures p in ListFiles(dir, entries) <==> IsFilePath(dir, entries, p)
    decreases entries, 1
  {
    if entries != [] {
      ListEntryExactly(dir, entries[0], p);
      ListFilesExactly(dir, entries[1..], p);
      if IsFilePath(dir, entries[1..], p) {
        var i :| 0 <= i < |entries[1..]| && EntryHoldsFile(dir, entries[1..][i], p);
        assert EntryHoldsFile(dir, entries[i + 1], p);
      }
      if IsFilePath(dir, entries, p) {
        var i :| 0 <= i < |entries| && EntryHoldsFile(dir, entries[i], p);
        if i > 0 { assert EntryHoldsFile(dir, entries[1..][i - 1], p); }
      }
    }
  }

  lemma {:induction false} ListEntryExactly(dir: string, e: Entry, p: string)
    ensures p in ListEntry(dir, e) <==> EntryHoldsFile(dir, e, p)
    decreases e, 0
  {
    match e
    case File(_) =>
    case Directory(name, sub) => ListFilesExactly(dir + "/" + name, sub, p);
  }

  /** Depth-first in directory order: the listing of consecutive runs of
      entries is the concatenation of their listings. */
  lemma {:induction false} ListFilesAppend(dir: string, a: seq<Entry>, b: seq<Entry>)
    ensures ListFiles(dir, a + b) == ListFiles(dir, a) + ListFiles(dir, b)
    decreases |a|
  {
    if a == [] {
      assert a + b == b;
    } else {
      assert (a + b)[0] == a[0];
      assert (a + b)[1..] == a[1..] + b;
      ListFilesAppend(dir, a[1..], b);
    }
  }

  /** Every listed path lies under `dir`. */
  lemma {:induction false} ListFilesUnder(dir: string, entries: seq<Entry>)
    ensures forall k :: 0 <= k < |ListFiles(dir, entries)| ==> StartsWith(ListFiles(dir, entries)[k], dir + "/")
    decreases entries, 1
  {
    if entries != [] {
      ListEntryUnder(dir, entries[0]);
      ListFilesUnder(dir, entries[1..]);
      var l, r := ListEntry(dir, entries[0]), ListFiles(dir, entries[1..]);
      assert forall k :: 0 <= k < |l + r| ==> (l + r)[k] == if k < |l| then l[k] else r[k - |l|];
    }
  }

  lemma {:induction false} ListEntryUnder(dir: string, e: Entry)
    ensures forall k :: 0 <= k < |ListEntry(dir, e)| ==> StartsWith(ListEntry(dir, e)[k], dir + "/")
    decreases e, 0
  {
    match e
    case File(name) =>
      assert (dir + "/" + name)[..|dir + "/"|] == dir + "/";
    case Directory(name, sub) =>
      var d := dir + "/" + name;
      ListFilesUnder(d, sub);
      forall k | 0 <= k < |ListFiles(d, sub)|
        ensures StartsWith(ListFiles(d, sub)[k], dir + "/")
      {
        var q := ListFiles(d, sub)[k];
        assert q[..|d + "/"|] == d + "/";
        assert q[..|dir + "/"|] == (d + "/")[..|dir + "/"|];
      }
  }

  // ---------------------------------------------------------------------------
  // scan and formatForMeta

  /** A metadata value as `typeof` sees it: only strings and numbers are
      written; anything else (undefined, objects) is skipped. Numbers are the
      integers the probe reports. */
  datatype MetaValue = MetaString(text: string) | MetaNumber(number: int) | MetaOther

  /** An object's own entries in `Object.entries` order. */
  type Meta = seq<(string, MetaValue)>

  /** What ffprobe reports about the first stream, when probing succeeds. The
      frame rate is the probe's `avg_frame_rate` already divided out. */
  datatype Probe = Probe(codec: MetaValue, width: MetaValue, height: MetaValue,
                         frameRate: MetaValue, duration: MetaValue, bitRate: MetaValue)

  /** `scan(path)`: the probe's fields under fixed names, or the empty object
      when probing fails in any way (`None`); it never throws. */
  function Scan(probe: Option<Probe>): (m: Meta)
    ensures probe.None? ==> m == []
    ensures probe.Some? ==> |m| == 6 && m[0].0 == "codec" && m[5].0 == "bitRate"
  {
    match probe
    case None => []
    case Some(p) =>
      [("codec", p.codec), ("width", p.width), ("height", p.height),
       ("frameRate", p.frameRate), ("duration", p.duration), ("bitRate", p.bitRate)]
  }

  predicate Printable(v: MetaValue) { v.MetaString? || v.MetaNumber? }

  /** `${k}=${v}` for a string or number value. */
  function Render(k: string, v: MetaValue): string
    requires Printable(v)
  {
    match v
    case MetaString(t) => k + "=" + t
    case MetaNumber(n) => k + "=" + IntToString(n)
  }

  /** The reducer of formatForMeta: append `k=v` when v is a string or number. */
  function ReduceStep(res: seq<string>, entry: (string, MetaValue)): seq<string> {
    if Printable(entry.1) then res + [Render(entry.0, entry.1)] else res
  }

  /** `Object.entries(obj).reduce(ReduceStep, res)`, a left fold. */
  function Reduce(res: seq<string>, entries: Meta): seq<string>
    decreases |entries|
  {
    if entries == [] then res else Reduce(ReduceStep(res, entries[0]), entries[1..])
  }

  /** `formatForMeta(obj)` */
  function FormatForMeta(obj: Meta): string {
    Join(",", Reduce([], obj))
  }

  /** Reference definition: the rendered pairs of the printable entries, in
      entry order. */
  function Printed(obj: Meta): seq<string>
    decreases |obj|
  {
    if obj == [] then []
    else (if Printable(obj[0].1) then [Render(obj[0].0, obj[0].1)] else []) + Printed(obj[1..])
  }

  /** The fold keeps exactly the string and number entries, rendered, in
      order. */
  lemma {:induction false} ReduceIsPrinted(res: seq<string>, obj: Meta)
    ensures Reduce(res, obj) == res + Printed(obj)
    decreases |obj|
  {
    if obj != [] {
      ReduceIsPrinted(ReduceStep(res, obj[0]), obj[1..]);
    }
  }

  /** formatForMeta is the comma-join of the printable pairs; `{}` gives "". */
  lemma FormatForMetaSpec(obj: Meta)
    ensures FormatForMeta(obj) == Join(",", Printed(obj))
    ensures obj == [] ==> FormatForMeta(obj) == ""
  {
    ReduceIsPrinted([], obj);
    assert [] + Printed(obj) == Printed(obj);
  }

  /** A failed probe gives the empty metadata string. */
  lemma FailedScanFormatsEmpty()
    ensures FormatForMeta(Scan(None)) == ""
  {
    FormatForMetaSpec([]);
  }

  /** When no key or string value holds a comma, splitting the metadata string
      on ',' recovers the pairs one by one. */
  lemma FormatForMetaSplits(obj: Meta)
    requires |Printed(obj)| > 0
    requires forall k :: 0 <= k < |Printed(obj)| ==> Free(Printed(obj)[k], ',')
    ensures Split(FormatForMeta(obj), ',') == Printed(obj)
  {
    FormatForMetaSpec(obj);
    JoinSplit(Printed(obj), ',');
  }

  // ---------------------------------------------------------------------------
  // makeS3Url and fileListOnS3

  /** `makeS3Url(bucket, key)`: the virtual-hosted-style public URL, with the
      region as the process environment renders it. */
  function MakeS3Url(bucket: string, region: string, key: string): (url: string)
    ensures StartsWith(url, "https://" + bucket + ".s3.")
  {
    var url := "https://" + bucket + ".s3." + region + ".amazonaws.com/" + key;
    assert url[..|"https://" + bucket + ".s3."|] == "https://" + bucket + ".s3.";
    url
  }

  /** What `exec` hands its callback: whether the shell reported an error,
      and the captured standard output and error text. */
  datatype ExecResult = ExecResult(failed: bool, stdout: string, stderr: string)

  /** `stdout.split('\n').filter(Boolean)` */
  function ParseListing(stdout: string): seq<string> {
    NonEmpty(Split(stdout, '\n'))
  }

  function NonEmpty(lines: seq<string>): (r: seq<string>)
    ensures |r| <= |lines|
    decreases |lines|
  {
    if lines == [] then []
    else (if lines[0] != "" then [lines[0]] else []) + NonEmpty(lines[1..])
  }

  /** `fileListOnS3`: rejects when the shell reports an error or anything was
      written to standard error, otherwise resolves with the listed names. */
  function FileListOnS3(r: ExecResult): (names: Option<seq<string>>)
    ensures names.Some? <==> !r.failed && r.stderr == ""
  {
    if r.failed then None
    else if r.stderr != "" then None
    else Some(ParseListing(r.stdout))
  }

  /** Every listed name is a non-empty line: never "", never holding a '\n'. */
  lemma ParseListingLines(stdout: string)
    ensures forall k :: 0 <= k < |ParseListing(stdout)| ==>
      ParseListing(stdout)[k] != "" && Free(ParseListing(stdout)[k], '\n')
  {
    SplitJoin(stdout, '\n');
    NonEmptyKeeps(Split(stdout, '\n'));
  }

  lemma {:induction false} NonEmptyKeeps(lines: seq<string>)
    ensures forall k :: 0 <= k < |NonEmpty(lines)| ==> NonEmpty(lines)[k] != "" && NonEmpty(lines)[k] in lines
    decreases |lines|
  {
    if lines != [] {
      NonEmptyKeeps(lines[1..]);
      var h := if lines[0] != "" then [lines[0]] else [];
      var t := NonEmpty(lines[1..]);
      assert NonEmpty(lines) == h + t;
      forall k | 0 <= k < |h + t| ensures (h + t)[k] != "" && (h + t)[k] in lines {
        if k >= |h| { assert (h + t)[k] == t[k - |h|]; assert t[k - |h|] in lines[1..]; }
      }
    }
  }

  /** The text `awk '{print $4}'` writes for the listed object names: each
      name on its own line. */
  function ListingText(names: seq<string>): string
    decreases |names|
  {
    if names == [] then "" else names[0] + "\n" + ListingText(names[1..])
  }

  /** Parsing the listing gives back the object names in listing order. */
  lemma {:induction false} ParseListingRoundTrip(names: seq<string>)
    requires forall k :: 0 <= k < |names| ==> names[k] != "" && Free(names[k], '\n')
    ensures ParseListing(ListingText(names)) == names
    decreases |names|
  {
    if names != [] {
      ParseListingRoundTrip(names[1..]);
      SplitFirst(names[0], ListingText(names[1..]), '\n');
      assert ListingText(names) == names[0] + ['\n'] + ListingText(names[1..]);
      var rest := Split(ListingText(names[1..]), '\n');
      assert ([names[0]] + rest)[1..] == rest;
    }
  }

  // ---------------------------------------------------------------------------
  // child-process outcomes

  /** The exit code a child process closes with; `None` is the `null` Node
      reports for a process killed by a signal (the spawn timeout). */
  type ExitCode = Option<int>

  predicate Succeeded(code: ExitCode) { code == Some(0) }

  /** `download`: resolves exactly when aria2c exits with code 0. */
  function DownloadSettles(code: ExitCode): (ok: bool)
    ensures ok <==> code == Some(0)
  {
    Succeeded(code)
  }

  /** `upload`: resolves with the object's public URL exactly when `aws s3 mv`
      exits with code 0, and rejects otherwise. */
  function UploadSettles(bucket: string, region: string, key: string, code: ExitCode): (url: Option<string>)
    ensures url.Some? <==> code == Some(0)
    ensures url.Some? ==> url.value == MakeS3Url(bucket, region, key)
  {
    if Succeeded(code) then Some(MakeS3Url(bucket, region, key)) else None
  }
}
