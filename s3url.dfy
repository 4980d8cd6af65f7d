/** remix/app/utils/aws.ts, with its copy in remix/app/utils/aws.server.ts:
    reading the bucket and key back out of a public object URL, and the
    path-style URL of an object. The parse is the regular expression
    `/https:\/\/(.+)\.s3.+?\/(.+)/`, written out as the search a JavaScript
    engine performs: leftmost start, greedy bucket, lazy host, greedy key,
    where `.` matches any character but a line terminator. */
module S3Url {
  import opened Strings
  import opened Libraries

  /** The region `getURLFromBucketAndKey` falls back to. */
  const DefaultRegion: string := "ap-northeast-1"

  /** The characters `.` does not match. */
  predicate IsLineTerminator(c: char) {
    c == '\n' || c == '\r' || c == '\U{2028}' || c == '\U{2029}'
  }

  predicate OneLine(s: string) {
    forall k :: 0 <= k < |s| ==> !IsLineTerminator(s[k])
  }

  /** The first line terminator at or after `i`, or the end of `s`. */
  function LineEnd(s: string, i: nat): (e: nat)
    requires i <= |s|
    ensures i <= e <= |s|
    ensures e < |s| ==> IsLineTerminator(s[e])
    ensures forall k :: i <= k < e ==> !IsLineTerminator(s[k])
    decreases |s| - i
  {
    if i == |s| || IsLineTerminator(s[i]) then i else LineEnd(s, i + 1)
  }

  /** The first '/' in `s[from..end)`. */
  function FirstSlash(s: string, from: nat, end: nat): (m: Option<nat>)
    requires end <= |s|
    ensures m.Some? ==> from <= m.value < end && s[m.value] == '/'
    decreases end - from
  {
    if end <= from then None
    else if s[from] == '/' then Some(from)
    else FirstSlash(s, from + 1, end)
  }

  /** With the bucket ending at `b` on a line ending at `e`: `\.s3` must
      come next, `.+?` then takes at least one character and stops at the
      first '/', and the key `(.+)` needs a character after it. The index
      of that '/'. */
  function SlashAfter(s: string, b: nat, e: nat): (m: Option<nat>)
    requires b <= e <= |s|
    ensures m.Some? ==> b + 4 <= m.value && m.value + 1 < e
  {
    if b + 3 <= e && s[b..b + 3] == ".s3" then
      match FirstSlash(s, b + 4, e)
      case Some(m) => if m + 1 < e then Some(m) else None
      case None => None
    else None
  }

  /** The greedy bucket: the longest one, ending at `b` or before but after
      `q`, that lets the rest of the pattern match. The bucket's end and the
      index of the '/' before the key. */
  function Backtrack(s: string, q: nat, b: nat, e: nat): (r: Option<(nat, nat)>)
    requires b <= e <= |s|
    ensures r.Some? ==> q < r.value.0 <= b && r.value.0 + 4 <= r.value.1 && r.value.1 + 1 < e
    decreases b
  {
    if b <= q then None
    else match SlashAfter(s, b, e)
      case Some(m) => Some((b, m))
      case None => Backtrack(s, q, b - 1, e)
  }

  /** The leftmost match starting at `p` or later: the bucket and key
      captured. */
  function MatchFrom(s: string, p: nat): (r: Option<(string, string)>)
    requires p <= |s|
    decreases |s| - p
  {
    if |s| - p < 8 then None
    else if s[p..p + 8] == "https://" then
      var e := LineEnd(s, p + 8);
      match Backtrack(s, p + 8, e, e)
      case Some((b, m)) => Some((s[p + 8..b], s[m + 1..e]))
      case None => MatchFrom(s, p + 1)
    else MatchFrom(s, p + 1)
  }

  /** `getBucketAndKeyFromURL(url)`: `[bucket, key]`, both `undefined` when
      the pattern does not match. */
  function GetBucketAndKeyFromURL(url: string): (r: (Option<string>, Option<string>))
    ensures r.0.Some? <==> r.1.Some?
  {
    match MatchFrom(url, 0)
    case Some((bucket, key)) => (Some(bucket), Some(key))
    case None => (None, None)
  }

  /** `getURLFromBucketAndKey(bucket, key, region)`: the path-style URL; an
      omitted region is "ap-northeast-1". */
  function GetURLFromBucketAndKey(bucket: string, key: string, region: Option<string>): (url: string)
    ensures StartsWith(url, "https://s3.")
  {
    var r := match region case Some(given) => given case None => DefaultRegion;
    var url := "https://s3." + r + ".amazonaws.com/" + bucket + "/" + key;
    assert url[..11] == "https://s3.";
    url
  }

  // ---------------------------------------------------------------------------
  // What the parse captures

  /** What a match at or after `p` captures: a non-empty bucket that
      follows "https://" and precedes ".s3", and a non-empty key that
      follows a '/' and runs to the end of its line; neither spans a line. */
  ghost predicate Captures(s: string, bucket: string, key: string) {
    && bucket != [] && key != [] && OneLine(bucket) && OneLine(key)
    && (exists i :: OccursAt(s, "https://" + bucket + ".s3", i))
    && (exists m :: LastOnLine(s, "/" + key, m))
  }

  /** `pat` occurs at `m` and ends its line. */
  predicate LastOnLine(s: string, pat: string, m: int) {
    OccursAt(s, pat, m) && (m + |pat| == |s| || IsLineTerminator(s[m + |pat|]))
  }

  lemma MatchHereSound(s: string, p: nat)
    requires p + 8 <= |s| && s[p..p + 8] == "https://"
    requires Backtrack(s, p + 8, LineEnd(s, p + 8), LineEnd(s, p + 8)).Some?
    ensures var e := LineEnd(s, p + 8);
      var (b, m) := Backtrack(s, p + 8, e, e).value;
      Captures(s, s[p + 8..b], s[m + 1..e])
  {
    var e := LineEnd(s, p + 8);
    var (b, m) := Backtrack(s, p + 8, e, e).value;
    var bucket, key := s[p + 8..b], s[m + 1..e];
    BacktrackFinds(s, p + 8, e, e);
    assert s[p..b + 3] == "https://" + bucket + ".s3";
    assert OccursAt(s, "https://" + bucket + ".s3", p);
    assert s[m..e] == "/" + key;
    assert LastOnLine(s, "/" + key, m);
  }

  lemma {:induction false} MatchFromSound(s: string, p: nat)
    requires p <= |s| && MatchFrom(s, p).Some?
    ensures Captures(s, MatchFrom(s, p).value.0, MatchFrom(s, p).value.1)
    decreases |s| - p
  {
    if s[p..p + 8] == "https://" && Backtrack(s, p + 8, LineEnd(s, p + 8), LineEnd(s, p + 8)).Some? {
      MatchHereSound(s, p);
    } else {
      MatchFromSound(s, p + 1);
    }
  }

  /** What the greedy bucket search finds is a ".s3" at the bucket's end and
      a '/' before the key. */
  lemma {:induction false} BacktrackFinds(s: string, q: nat, b: nat, e: nat)
    requires b <= e <= |s| && Backtrack(s, q, b, e).Some?
    ensures var (b', m) := Backtrack(s, q, b, e).value;
      s[b'..b' + 3] == ".s3" && s[m] == '/'
    decreases b
  {
    if SlashAfter(s, b, e).None? {
      BacktrackFinds(s, q, b - 1, e);
    }
  }

  /** Without any ".s3" in it, a string never matches. */
  lemma {:induction false} NoS3NoMatch(s: string, p: nat)
    requires p <= |s|
    requires forall i :: !OccursAt(s, ".s3", i)
    ensures MatchFrom(s, p).None?
    decreases |s| - p
  {
    if |s| - p >= 8 {
      if s[p..p + 8] == "https://" {
        var e := LineEnd(s, p + 8);
        if Backtrack(s, p + 8, e, e).Some? {
          BacktrackFinds(s, p + 8, e, e);
          var (b, m) := Backtrack(s, p + 8, e, e).value;
          assert OccursAt(s, ".s3", b);
        }
      }
      NoS3NoMatch(s, p + 1);
    }
  }

  /** A URL holding no ".s3" parses to `[undefined, undefined]`; in
      particular a path-style URL whose parts hold no ".s3" is not read
      back by `getBucketAndKeyFromURL`. */
  lemma NoS3Undefined(url: string)
    requires forall i :: !OccursAt(url, ".s3", i)
    ensures GetBucketAndKeyFromURL(url) == (None, None)
  {
    NoS3NoMatch(url, 0);
  }

  // ---------------------------------------------------------------------------
  // Round trip with makeS3Url

  lemma OneLineConcat(a: string, b: string)
    requires OneLine(a) && OneLine(b)
    ensures OneLine(a + b)
  {
    forall k | 0 <= k < |a + b| ensures !IsLineTerminator((a + b)[k]) {
      if k < |a| { assert (a + b)[k] == a[k]; } else { assert (a + b)[k] == b[k - |a|]; }
    }
  }

  /** The greedy search skips every bucket end from `b` down to `lo + 1`
      when none of them is followed by ".s3". */
  lemma {:induction false} BacktrackSkips(s: string, q: nat, lo: nat, b: nat, e: nat)
    requires q <= lo <= b <= e <= |s|
    requires forall k :: lo < k <= b ==> !OccursAt(s, ".s3", k)
    ensures Backtrack(s, q, b, e) == Backtrack(s, q, lo, e)
    decreases b
  {
    if lo < b {
      assert !OccursAt(s, ".s3", b);
      BacktrackSkips(s, q, lo, b - 1, e);
    }
  }

  /** `FirstSlash` stops at the first '/'. */
  lemma {:induction false} FirstSlashAt(s: string, from: nat, end: nat, m: nat)
    requires from <= m < end <= |s| && s[m] == '/'
    requires forall k :: from <= k < m ==> s[k] != '/'
    ensures FirstSlash(s, from, end) == Some(m)
    decreases m - from
  {
    if from < m { FirstSlashAt(s, from + 1, end, m); }
  }

  /** ".s3" at `k`, character by character. */
  lemma S3At(s: string, k: int)
    ensures OccursAt(s, ".s3", k) <==> 0 <= k && k + 3 <= |s| && s[k] == '.' && s[k + 1] == 's' && s[k + 2] == '3'
  {
    if 0 <= k && k + 3 <= |s| {
      assert s[k..k + 3] == [s[k], s[k + 1], s[k + 2]];
    }
  }

  /** After the bucket of a `makeS3Url` URL, ".s3" occurs only right at the
      bucket's end, given the region and the key hold no ".s3" of their
      own and the region does not start with "s3". */
  lemma TailHasOneS3(region: string, key: string)
    requires forall i :: !OccursAt("." + region, ".s3", i)
    requires forall i :: !OccursAt(key, ".s3", i)
    ensures forall k :: 1 <= k ==> !OccursAt(".s3." + region + ".amazonaws.com/" + key, ".s3", k)
  {
    var r := "." + region;
    var lit := ".amazonaws.com/";
    var tail := ".s3" + r + lit + key;
    assert tail == ".s3." + region + ".amazonaws.com/" + key;
    forall k | 1 <= k ensures !OccursAt(tail, ".s3", k) {
      S3At(tail, k);
      var j := k - 3;
      if k + 3 > |tail| || k < 3 {
      } else if j + 3 <= |r| {
        assert tail[k..k + 3] == r[j..j + 3];
        assert !OccursAt(r, ".s3", j);
      } else if j < |r| {
        assert tail[3 + |r|] == '.';
      } else if j < |r| + |lit| {
        var o := j - |r|;
        assert tail[k] == lit[o];
        if o < 14 { assert tail[k + 1] == lit[o + 1]; }
      } else {
        var o := j - |r| - |lit|;
        assert tail[k..k + 3] == key[o..o + 3];
        assert !OccursAt(key, ".s3", o);
      }
    }
  }

  /** A `makeS3Url` URL built from one-line parts is one line. */
  lemma UrlOneLine(bucket: string, region: string, key: string)
    requires OneLine(bucket) && OneLine(region) && OneLine(key)
    ensures var url := MakeS3Url(bucket, region, key);
      LineEnd(url, 8) == |url|
  {
    assert OneLine("https://");
    assert OneLine(".s3.");
    assert OneLine(".amazonaws.com/");
    OneLineConcat("https://", bucket);
    OneLineConcat("https://" + bucket, ".s3.");
    OneLineConcat("https://" + bucket + ".s3.", region);
    OneLineConcat("https://" + bucket + ".s3." + region, ".amazonaws.com/");
    OneLineConcat("https://" + bucket + ".s3." + region + ".amazonaws.com/", key);
  }

  /** In a `makeS3Url` URL, the greedy bucket search skips every end past
      the real bucket's. */
  lemma UrlSkipsLongerBuckets(bucket: string, region: string, key: string)
    requires forall i :: !OccursAt("." + region, ".s3", i)
    requires forall i :: !OccursAt(key, ".s3", i)
    ensures var url := MakeS3Url(bucket, region, key);
      Backtrack(url, 8, |url|, |url|) == Backtrack(url, 8, 8 + |bucket|, |url|)
  {
    var url := MakeS3Url(bucket, region, key);
    var tail := ".s3." + region + ".amazonaws.com/" + key;
    var b0 := 8 + |bucket|;
    assert url == "https://" + bucket + tail;
    TailHasOneS3(region, key);
    forall k | b0 < k <= |url| ensures !OccursAt(url, ".s3", k) {
      if k + 3 <= |url| {
        assert url[k..k + 3] == tail[k - b0..k - b0 + 3];
        assert !OccursAt(tail, ".s3", k - b0);
      }
    }
    BacktrackSkips(url, 8, b0, |url|, |url|);
  }

  /** In a `makeS3Url` URL, the real bucket's end is followed by ".s3", the
      host and the '/' before the key. */
  lemma UrlBucketEnd(bucket: string, region: string, key: string)
    requires bucket != [] && key != [] && Free(region, '/')
    ensures var url := MakeS3Url(bucket, region, key);
      Backtrack(url, 8, 8 + |bucket|, |url|) == Some((8 + |bucket|, 8 + |bucket| + 4 + |region| + 14))
  {
    var url := MakeS3Url(bucket, region, key);
    var b0 := 8 + |bucket|;
    var m0 := b0 + 4 + |region| + 14;
    var e := |url|;
    assert url[b0..b0 + 3] == ".s3";
    forall k | b0 + 4 <= k < m0 ensures url[k] != '/' {
      if k < b0 + 4 + |region| {
        assert url[k] == region[k - b0 - 4];
      } else {
        assert url[k] == ".amazonaws.com/"[k - b0 - 4 - |region|];
      }
    }
    assert url[m0] == '/';
    FirstSlashAt(url, b0 + 4, e, m0);
    assert SlashAfter(url, b0, e) == Some(m0);
  }

  /** Parsing the URL `makeS3Url` builds gives back the bucket and the key,
      for any non-empty bucket and key on one line, provided the region
      holds no '/' and neither the region nor the key holds ".s3" (nor the
      region starts with "s3"). The key may hold '/' and the bucket may
      hold ".s3". */
  lemma RoundTrip(bucket: string, region: string, key: string)
    requires bucket != [] && key != []
    requires OneLine(bucket) && OneLine(region) && OneLine(key)
    requires Free(region, '/')
    requires forall i :: !OccursAt("." + region, ".s3", i)
    requires forall i :: !OccursAt(key, ".s3", i)
    ensures GetBucketAndKeyFromURL(MakeS3Url(bucket, region, key)) == (Some(bucket), Some(key))
  {
    var url := MakeS3Url(bucket, region, key);
    var b0 := 8 + |bucket|;
    var m0 := b0 + 4 + |region| + 14;
    UrlOneLine(bucket, region, key);
    UrlSkipsLongerBuckets(bucket, region, key);
    UrlBucketEnd(bucket, region, key);
    assert Backtrack(url, 8, |url|, |url|) == Some((b0, m0));
    assert url[0..8] == "https://";
    assert url[8..b0] == bucket;
    assert url[m0 + 1..|url|] == key;
    assert MatchFrom(url, 0) == Some((bucket, key));
  }

  /** The key is everything after the '/' that ends the host, so a key with
      '/' in it comes back whole. */
  lemma KeyMayHoldSlashes()
    ensures GetBucketAndKeyFromURL("https://b.s3.r.amazonaws.com/k/1") == (Some("b"), Some("k/1"))
  {
    assert MakeS3Url("b", "r", "k/1") == "https://b.s3.r.amazonaws.com/k/1";
    forall i ensures !OccursAt(".r", ".s3", i) {
      S3At(".r", i);
    }
    forall i ensures !OccursAt("k/1", ".s3", i) {
      S3At("k/1", i);
    }
    assert OneLine("b") && OneLine("r") && OneLine("k/1");
    RoundTrip("b", "r", "k/1");
  }

  /** With no region given, the URL names the default region. */
  lemma DefaultRegionUsed(bucket: string, key: string)
    ensures GetURLFromBucketAndKey(bucket, key, None) == GetURLFromBucketAndKey(bucket, key, Some(DefaultRegion))
    ensures GetURLFromBucketAndKey(bucket, key, None) ==
      "https://s3.ap-northeast-1.amazonaws.com/" + bucket + "/" + key
  {
  }

  /** The path segments of `getURLFromBucketAndKey(bucket, key, region)`:
      the scheme, the empty segment of "//", the host naming the region,
      the bucket, then the key's own segments. So the region, the bucket and
      the key can be read back from the URL when the region and the bucket
      hold no '/'. */
  lemma PathStyleSegments(bucket: string, key: string, region: string)
    requires Free(region, '/') && Free(bucket, '/')
    ensures Split(GetURLFromBucketAndKey(bucket, key, Some(region)), '/') ==
      ["https:", "", "s3." + region + ".amazonaws.com", bucket] + Split(key, '/')
  {
    var host := "s3." + region + ".amazonaws.com";
    HostFree(region);
    PathStyleShape(bucket, key, region);
    SplitFirst(bucket, key, '/');
    SplitPrefixes("https:", "", host, bucket + ['/'] + key, '/');
  }

  /** The host of a path-style URL holds no '/' when its region holds none. */
  lemma HostFree(region: string)
    requires Free(region, '/')
    ensures Free("s3." + region + ".amazonaws.com", '/')
  {
    var host := "s3." + region + ".amazonaws.com";
    forall i | 0 <= i < |host| ensures host[i] != '/' {
      if i < 3 {
        assert host[i] == "s3."[i];
      } else if i < 3 + |region| {
        assert host[i] == region[i - 3];
      } else {
        assert host[i] == ".amazonaws.com"[i - 3 - |region|];
      }
    }
  }

  /** The path-style URL cut at its separators. */
  lemma PathStyleShape(bucket: string, key: string, region: string)
    ensures GetURLFromBucketAndKey(bucket, key, Some(region)) ==
      "https:" + ['/'] + "" + ['/'] + ("s3." + region + ".amazonaws.com") + ['/'] + (bucket + ['/'] + key)
  {
    assert "https://s3." == "https:" + ['/'] + "" + ['/'] + "s3.";
    assert ".amazonaws.com/" == ".amazonaws.com" + ['/'];
  }

  /** Three separator-free pieces, each followed by the separator, split off
      one by one. */
  lemma SplitPrefixes(p1: string, p2: string, p3: string, rest: string, c: char)
    requires Free(p1, c) && Free(p2, c) && Free(p3, c)
    ensures Split(p1 + [c] + p2 + [c] + p3 + [c] + rest, c) == [p1, p2, p3] + Split(rest, c)
  {
    var t3 := p3 + [c] + rest;
    var t2 := p2 + [c] + t3;
    assert p1 + [c] + p2 + [c] + p3 + [c] + rest == p1 + [c] + t2;
    SplitFirst(p3, rest, c);
    SplitFirst(p2, t3, c);
    SplitFirst(p1, t2, c);
  }

  /** The two helpers do not pair up: `getBucketAndKeyFromURL` does not read
      back the path-style URL `getURLFromBucketAndKey` builds. */
  lemma PathStyleNotParsed()
    ensures GetBucketAndKeyFromURL(GetURLFromBucketAndKey("b", "k", None)) == (None, None)
  {
    DefaultUrlHasNoS3();
    NoS3Undefined(GetURLFromBucketAndKey("b", "k", None));
  }

  /** The path-style URL of object "k" in bucket "b" holds no ".s3": its
      "s3" follows "//", not a '.'. */
  lemma DefaultUrlHasNoS3()
    ensures forall i :: !OccursAt(GetURLFromBucketAndKey("b", "k", None), ".s3", i)
  {
    DefaultRegionUsed("b", "k");
    assert "https://s3.ap-northeast-1.amazonaws.com/" + "b" + "/" + "k" == "https://s3.ap-northeast-1.amazonaws.com/b/k";
    NoS3InLiteral("https://s3.ap-northeast-1.amazonaws.com/b/k");
  }

  lemma NoS3InLiteral(url: string)
    requires url == "https://s3.ap-northeast-1.amazonaws.com/b/k"
    ensures forall i :: !OccursAt(url, ".s3", i)
  {
    forall i ensures !OccursAt(url, ".s3", i) {
      S3At(url, i);
    }
  }
}
