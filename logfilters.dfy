/** The output handlers the batch scripts attach to their child processes.
    Each handler keeps a little mutable state between 'data' events; here that
    state is a field of a sink object, the console is the sequence `printed`,
    and the ghost field `chunks` records every chunk received so far, so that
    each sink's invariant ties what it printed to a specification function of
    the chunks. */
module LogFilters {
  import opened Strings

  // ---------------------------------------------------------------------------
  // Suppressing a chunk equal to the previous one
  // (stderr of aria2c and of `aws s3 mv`; stdout and stderr of ffmpeg and of
  // `aws s3 mv` in the older script)

  /** The chunks printed when each chunk is printed iff it differs from the
      chunk received just before it (`last` for the first one). */
  function DedupLog(last: string, chunks: seq<string>): seq<string>
    decreases |chunks|
  {
    if chunks == [] then []
    else (if chunks[0] != last then [chunks[0]] else []) + DedupLog(chunks[0], chunks[1..])
  }

  function LastOr(init: string, chunks: seq<string>): string {
    if chunks == [] then init else chunks[|chunks| - 1]
  }

  lemma {:induction false} DedupLogSnoc(last: string, chunks: seq<string>, c: string)
    ensures DedupLog(last, chunks + [c]) ==
            DedupLog(last, chunks) + (if c != LastOr(last, chunks) then [c] else [])
    decreases |chunks|
  {
    if chunks == [] {
      assert DedupLog(c, []) == [];
    } else {
      assert (chunks + [c])[0] == chunks[0];
      assert (chunks + [c])[1..] == chunks[1..] + [c];
      DedupLogSnoc(chunks[0], chunks[1..], c);
      assert LastOr(chunks[0], chunks[1..]) == LastOr(last, chunks);
    }
  }

  /** What is printed never repeats itself: the first printed chunk differs
      from `last` and each printed chunk differs from the one printed before. */
  lemma {:induction false} DedupLogNoRepeats(last: string, chunks: seq<string>)
    ensures DedupLog(last, chunks) != [] ==> DedupLog(last, chunks)[0] != last
    ensures forall k :: 0 < k < |DedupLog(last, chunks)| ==>
      DedupLog(last, chunks)[k] != DedupLog(last, chunks)[k - 1]
    decreases |chunks|
  {
    if chunks != [] {
      var c := chunks[0];
      DedupLogNoRepeats(c, chunks[1..]);
      var t := DedupLog(c, chunks[1..]);
      if c != last {
        assert DedupLog(last, chunks) == [c] + t;
        forall k | 0 < k < |[c] + t| ensures ([c] + t)[k] != ([c] + t)[k - 1] {
          if k == 1 { assert ([c] + t)[1] == t[0]; } else { assert ([c] + t)[k] == t[k - 1]; }
        }
      } else {
        assert DedupLog(last, chunks) == t;
        DedupLogFirst(c, chunks[1..]);
      }
    }
  }

  /** Starting from `last`, nothing equal to `last` is printed first. */
  lemma {:induction false} DedupLogFirst(last: string, chunks: seq<string>)
    ensures DedupLog(last, chunks) != [] ==> DedupLog(last, chunks)[0] != last
    decreases |chunks|
  {
    if chunks != [] && chunks[0] == last {
      DedupLogFirst(last, chunks[1..]);
    }
  }

  /** Filtering an already filtered log again changes nothing. */
  lemma {:induction false} DedupLogIdempotent(last: string, chunks: seq<string>)
    ensures DedupLog(last, DedupLog(last, chunks)) == DedupLog(last, chunks)
    decreases |chunks|
  {
    if chunks != [] {
      var c := chunks[0];
      if c != last {
        DedupLogIdempotent(c, chunks[1..]);
        var t := DedupLog(c, chunks[1..]);
        assert DedupLog(last, chunks) == [c] + t;
        assert ([c] + t)[0] == c && ([c] + t)[1..] == t;
      } else {
        DedupLogIdempotent(last, chunks[1..]);
        assert DedupLog(last, chunks) == DedupLog(last, chunks[1..]);
      }
    }
  }

  /** A stream in which every chunk differs from the one before is printed
      entirely. */
  lemma {:induction false} DedupLogKeepsChanges(last: string, chunks: seq<string>)
    requires chunks != [] ==> chunks[0] != last
    requires forall k :: 0 < k < |chunks| ==> chunks[k] != chunks[k - 1]
    ensures DedupLog(last, chunks) == chunks
    decreases |chunks|
  {
    if chunks != [] {
      DedupLogKeepsChanges(chunks[0], chunks[1..]);
    }
  }

  /** The per-handler state: the previous chunk (initially '') and the
      console. */
  class DedupSink {
    var last: string
    var printed: seq<string>
    ghost var chunks: seq<string>

    ghost predicate Valid()
      reads this
    {
      printed == DedupLog("", chunks) && last == LastOr("", chunks)
    }

    constructor ()
      ensures Valid() && chunks == [] && printed == []
    {
      last := "";
      printed := [];
      chunks := [];
    }

    /** One 'data' event: print the chunk unless it equals the previous one. */
    method OnData(chunk: string)
      requires Valid()
      modifies this
      ensures Valid() && chunks == old(chunks) + [chunk]
      ensures printed == old(printed) + (if chunk != old(last) then [chunk] else [])
    {
      DedupLogSnoc("", chunks, chunk);
      if chunk != last {
        last := chunk;
        printed := printed + [chunk];
      }
      chunks := chunks + [chunk];
    }
  }

  // ---------------------------------------------------------------------------
  // Throttled progress: `if (counter++ < limit) return; print; counter = 0`

  /** The upload's stdout handler prints a chunk when it holds "move:", and,
      independently, the throttle prints one chunk in every 1001. */
  const UploadThrottle: nat := 1000

  /** What the handler prints for the chunk numbered `seen` (from 0): the
      chunk when it holds "move:", and the chunk again when the throttle
      lets it through, which it does iff `seen % 1001 == 1000`. */
  function UploadPrinted(seen: nat, c: string): seq<string> {
    (if Includes(c, "move:") then [c] else [])
    + (if seen % (UploadThrottle + 1) == UploadThrottle then [c] else [])
  }

  /** Reference definition of the upload stdout log, given how many chunks
      came before. */
  function UploadExpected(seen: nat, chunks: seq<string>): seq<string>
    decreases |chunks|
  {
    if chunks == [] then []
    else UploadPrinted(seen, chunks[0]) + UploadExpected(seen + 1, chunks[1..])
  }

  lemma {:induction false} UploadExpectedSnoc(seen: nat, chunks: seq<string>, c: string)
    ensures UploadExpected(seen, chunks + [c]) == UploadExpected(seen, chunks) + UploadPrinted(seen + |chunks|, c)
    decreases |chunks|
  {
    if chunks == [] {
      assert UploadExpected(seen + 1, []) == [];
    } else {
      assert (chunks + [c])[0] == chunks[0];
      assert (chunks + [c])[1..] == chunks[1..] + [c];
      UploadExpectedSnoc(seen + 1, chunks[1..], c);
    }
  }

  /** Among the first `n` chunks the throttle prints `n / 1001` of them, so
      its share of the log is bounded no matter how chatty the tool is. */
  lemma {:induction false} UploadThrottleCount(seen: nat, chunks: seq<string>)
    requires seen % (UploadThrottle + 1) == 0
    requires forall k :: 0 <= k < |chunks| ==> !Includes(chunks[k], "move:")
    ensures |UploadExpected(seen, chunks)| == |chunks| / (UploadThrottle + 1)
    decreases |chunks|
  {
    if chunks != [] {
      var m := |chunks| - 1;
      var front, c := chunks[..m], chunks[m];
      assert chunks == front + [c];
      UploadThrottleCount(seen, front);
      UploadExpectedSnoc(seen, front, c);
      ThrottleStep(seen, m);
      assert |UploadPrinted(seen + m, c)| == if (seen + m) % (UploadThrottle + 1) == UploadThrottle then 1 else 0;
    }
  }

  /** Counting from a multiple of 1001, the chunk numbered `seen + m` is let
      through exactly when it completes another 1001 chunks. */
  lemma ThrottleStep(seen: nat, m: nat)
    requires seen % (UploadThrottle + 1) == 0
    ensures (m + 1) / (UploadThrottle + 1) ==
      m / (UploadThrottle + 1) + (if (seen + m) % (UploadThrottle + 1) == UploadThrottle then 1 else 0)
  {
    assert (seen + m) % (UploadThrottle + 1) == m % (UploadThrottle + 1);
  }

  /** The chunk count modulo 1001 either steps up or wraps to 0. */
  lemma CounterStep(n: nat)
    ensures n % (UploadThrottle + 1) < UploadThrottle ==> (n + 1) % (UploadThrottle + 1) == n % (UploadThrottle + 1) + 1
    ensures n % (UploadThrottle + 1) == UploadThrottle ==> (n + 1) % (UploadThrottle + 1) == 0
  {
  }

  /** The `aws s3 mv` stdout handler of the upload helper. */
  class UploadStdoutSink {
    var counter: nat
    var printed: seq<string>
    ghost var chunks: seq<string>

    ghost predicate Valid()
      reads this
    {
      counter == |chunks| % (UploadThrottle + 1) && printed == UploadExpected(0, chunks)
    }

    constructor ()
      ensures Valid() && chunks == [] && printed == []
    {
      counter := 0;
      printed := [];
      chunks := [];
    }

    method OnData(chunk: string)
      requires Valid()
      modifies this
      ensures Valid() && chunks == old(chunks) + [chunk]
      ensures printed == old(printed) + UploadPrinted(|old(chunks)|, chunk)
    {
      UploadExpectedSnoc(0, chunks, chunk);
      CounterStep(|chunks|);
      if Includes(chunk, "move:") {
        printed := printed + [chunk];
      }
      chunks := chunks + [chunk];
      if counter < UploadThrottle {
        counter := counter + 1;
        return;
      }
      printed := printed + [chunk];
      counter := 0;
    }
  }

  /** ffmpeg writes its progress lines ("frame= ...") to stderr; the
      compression script prints every other chunk and one progress chunk in
      every 31. */
  const FrameThrottle: nat := 30

  predicate IsProgress(chunk: string) { Includes(chunk, "frame=") }

  function ProgressCount(chunks: seq<string>): nat
    decreases |chunks|
  {
    if chunks == [] then 0
    else (if IsProgress(chunks[0]) then 1 else 0) + ProgressCount(chunks[1..])
  }

  /** Reference definition of the ffmpeg stderr log, given how many progress
      chunks came before: other chunks are always printed, the progress chunk
      numbered `frames` (from 0) is printed iff `frames % 31 == 30`. */
  function FrameExpected(frames: nat, chunks: seq<string>): seq<string>
    decreases |chunks|
  {
    if chunks == [] then []
    else
      var c := chunks[0];
      if !IsProgress(c) then [c] + FrameExpected(frames, chunks[1..])
      else (if frames % (FrameThrottle + 1) == FrameThrottle then [c] else [])
           + FrameExpected(frames + 1, chunks[1..])
  }

  lemma {:induction false} FrameExpectedSnoc(frames: nat, chunks: seq<string>, c: string)
    ensures ProgressCount(chunks + [c]) == ProgressCount(chunks) + (if IsProgress(c) then 1 else 0)
    ensures FrameExpected(frames, chunks + [c]) ==
            FrameExpected(frames, chunks)
            + (if !IsProgress(c) then [c]
               else if (frames + ProgressCount(chunks)) % (FrameThrottle + 1) == FrameThrottle then [c]
               else [])
    decreases |chunks|
  {
    if chunks == [] {
      assert FrameExpected(frames, [c])[..] == FrameExpected(frames, [c]);
      assert [c][1..] == [];
    } else {
      assert (chunks + [c])[0] == chunks[0];
      assert (chunks + [c])[1..] == chunks[1..] + [c];
      if IsProgress(chunks[0]) {
        FrameExpectedSnoc(frames + 1, chunks[1..], c);
      } else {
        FrameExpectedSnoc(frames, chunks[1..], c);
      }
    }
  }

  /** Every chunk that is not a progress line is printed, in order. */
  lemma {:induction false} FrameExpectedKeepsMessages(frames: nat, chunks: seq<string>)
    requires forall k :: 0 <= k < |chunks| ==> !IsProgress(chunks[k])
    ensures FrameExpected(frames, chunks) == chunks
    decreases |chunks|
  {
    if chunks != [] {
      FrameExpectedKeepsMessages(frames, chunks[1..]);
    }
  }

  /** The progress count modulo 31 either steps up or wraps to 0. */
  lemma FrameCounterStep(n: nat)
    ensures n % (FrameThrottle + 1) < FrameThrottle ==> (n + 1) % (FrameThrottle + 1) == n % (FrameThrottle + 1) + 1
    ensures n % (FrameThrottle + 1) == FrameThrottle ==> (n + 1) % (FrameThrottle + 1) == 0
  {
  }

  /** The ffmpeg stderr handler of the compression script. */
  class FrameSink {
    var counter: nat
    var printed: seq<string>
    ghost var chunks: seq<string>

    ghost predicate Valid()
      reads this
    {
      counter == ProgressCount(chunks) % (FrameThrottle + 1) && printed == FrameExpected(0, chunks)
    }

    constructor ()
      ensures Valid() && chunks == [] && printed == []
    {
      counter := 0;
      printed := [];
      chunks := [];
    }

    method OnData(chunk: string)
      requires Valid()
      modifies this
      ensures Valid() && chunks == old(chunks) + [chunk]
      ensures printed == old(printed) + (if !IsProgress(chunk) || old(counter) == FrameThrottle then [chunk] else [])
    {
      FrameExpectedSnoc(0, chunks, chunk);
      FrameCounterStep(ProgressCount(chunks));
      chunks := chunks + [chunk];
      if !Includes(chunk, "frame=") {
        printed := printed + [chunk];
        return;
      }
      if counter < FrameThrottle {
        counter := counter + 1;
        return;
      }
      printed := printed + [chunk];
      counter := 0;
    }
  }

  // ---------------------------------------------------------------------------
  // aria2c stdout: only the download summary is printed

  function SummaryLog(chunks: seq<string>): (r: seq<string>)
    decreases |chunks|
  {
    if chunks == [] then []
    else (if Includes(chunks[0], "Summary") then [chunks[0]] else []) + SummaryLog(chunks[1..])
  }

  /** A chunk reaches the console iff it holds "Summary". */
  lemma {:induction false} SummaryLogExactly(chunks: seq<string>, c: string)
    ensures c in SummaryLog(chunks) <==> c in chunks && Contains(c, "Summary")
    decreases |chunks|
  {
    if chunks != [] {
      SummaryLogExactly(chunks[1..], c);
      assert chunks == [chunks[0]] + chunks[1..];
    }
  }
}
