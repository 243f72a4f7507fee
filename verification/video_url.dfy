/**
 * Video-ID extraction from a YouTube URL (`get_video_id_from_url`).
 *
 * The URL arrives already split into hostname, path and query in the sense
 * of section 3 of RFC 3986; the parsing itself is not modelled.
 */
module VideoUrl {
  import opened Wrappers
  import opened PyText

  /** A parsed query string: like the output of `parse_qs`, every key carries at least one value. */
  type Query = q: map<string, seq<string>> | forall k :: k in q ==> |q[k]| > 0

  /** A URL after parsing. `hostname` is absent when the URL names no host. */
  datatype ParsedUrl = ParsedUrl(hostname: Option<string>, path: string, query: Query)

  /**
   * What the extraction produces: an ID, Python's `None`, or the `KeyError`
   * raised when a `/watch` URL has no `v` parameter.
   */
  datatype IdResult = VideoId(id: string) | NoMatch | MissingKey(key: string)

  const ShortHost := "youtu.be"
  const WatchPath := "/watch"
  const EmbedPrefix := "/embed/"
  const LegacyPrefix := "/v/"

  predicate IsLongHost(h: Option<string>) {
    h == Some("www.youtube.com") || h == Some("youtube.com")
  }

  /** The URL shapes for which an ID (rather than `None`) comes back. */
  predicate RecognizedShape(u: ParsedUrl) {
    || u.hostname == Some(ShortHost)
    || (IsLongHost(u.hostname)
        && (u.path == WatchPath || StartsWith(u.path, EmbedPrefix) || StartsWith(u.path, LegacyPrefix)))
  }

  /** `path.split('/')[2]` for a path of the form `/word/...`: the segment after `word`. */
  function SecondSegment(path: string, word: string): (r: string)
    requires '/' !in word
    requires StartsWith(path, "/" + word + "/")
    ensures r == FirstSegment(path[|word| + 2..], '/')
  {
    var rest := path[|word| + 2..];
    assert path == [] + ['/'] + (word + ['/'] + rest);
    SplitAtFirst([], '/', word + ['/'] + rest);
    SplitAtFirst(word, '/', rest);
    SplitFirstIsFirstSegment(rest, '/');
    Split(path, '/')[2]
  }

  function ExtractVideoId(u: ParsedUrl): (r: IdResult)
    ensures r.MissingKey? <==> IsLongHost(u.hostname) && u.path == WatchPath && "v" !in u.query
    ensures r.MissingKey? ==> r.key == "v"
    ensures r.NoMatch? <==> !RecognizedShape(u)
    ensures u.hostname == Some(ShortHost) ==> r == VideoId(Tail(u.path, 1))
    ensures IsLongHost(u.hostname) && u.path == WatchPath && "v" in u.query ==>
              r == VideoId(u.query["v"][0])
    ensures IsLongHost(u.hostname) && StartsWith(u.path, EmbedPrefix) ==>
              r == VideoId(FirstSegment(u.path[|EmbedPrefix|..], '/'))
    ensures IsLongHost(u.hostname) && StartsWith(u.path, LegacyPrefix) ==>
              r == VideoId(FirstSegment(u.path[|LegacyPrefix|..], '/'))
  {
    HeadIsPrefixTest(u.path, EmbedPrefix);
    HeadIsPrefixTest(u.path, LegacyPrefix);
    if u.hostname == Some(ShortHost) then
      VideoId(Tail(u.path, 1))
    else if IsLongHost(u.hostname) then
      if u.path == WatchPath then
        assert WatchPath[1] == 'w' && EmbedPrefix[1] == 'e' && LegacyPrefix[1] == 'v';
        if "v" in u.query then VideoId(u.query["v"][0]) else MissingKey("v")
      else if Head(u.path, 7) == EmbedPrefix then
        assert EmbedPrefix == "/" + "embed" + "/" && |EmbedPrefix| == |"embed"| + 2;
        VideoId(SecondSegment(u.path, "embed"))
      else if Head(u.path, 3) == LegacyPrefix then
        assert LegacyPrefix == "/" + "v" + "/" && |LegacyPrefix| == |"v"| + 2;
        VideoId(SecondSegment(u.path, "v"))
      else
        NoMatch
    else
      NoMatch
  }

  /** `https://youtu.be/<id>` yields `<id>`, including any later '/' segments. */
  lemma ShortLinkRoundTrip(id: string, q: Query)
    ensures ExtractVideoId(ParsedUrl(Some(ShortHost), "/" + id, q)) == VideoId(id)
  {
    assert ("/" + id)[1..] == id;
  }

  /** `/watch?v=<id>&...` yields `<id>`, the first of the `v` values. */
  lemma WatchRoundTrip(host: Option<string>, id: string, more: seq<string>, q: Query)
    requires IsLongHost(host)
    ensures ExtractVideoId(ParsedUrl(host, WatchPath, q["v" := [id] + more])) == VideoId(id)
  {
  }

  /** Query parameters other than `v` (such as `t=30s`) never affect the result. */
  lemma OtherParametersIgnored(u: ParsedUrl, key: string, values: seq<string>)
    requires key != "v" && |values| > 0
    ensures ExtractVideoId(u.(query := u.query[key := values])) == ExtractVideoId(u)
  {
  }

  /**
   * `/embed/<id>` and `/v/<id>` yield `<id>` whenever `<id>` holds no '/';
   * anything after a further '/' is ignored.
   */
  lemma {:induction false} EmbedRoundTrip(host: Option<string>, prefix: string, id: string, rest: string, q: Query)
    requires IsLongHost(host)
    requires prefix == EmbedPrefix || prefix == LegacyPrefix
    requires '/' !in id
    requires rest == "" || rest[0] == '/'
    ensures ExtractVideoId(ParsedUrl(host, prefix + id + rest, q)) == VideoId(id)
  {
    var path := prefix + id + rest;
    assert path[|prefix|..] == id + rest;
    FirstSegmentOfWord(id, '/', rest);
  }

  /** Only the three recognised hostnames can produce an ID. */
  lemma ForeignHostHasNoId(u: ParsedUrl)
    requires u.hostname != Some(ShortHost) && !IsLongHost(u.hostname)
    ensures ExtractVideoId(u) == NoMatch
  {
  }

  /** The embed and legacy shapes never return an ID containing '/'. */
  lemma PrefixedIdHasNoSlash(u: ParsedUrl)
    requires IsLongHost(u.hostname)
    requires StartsWith(u.path, EmbedPrefix) || StartsWith(u.path, LegacyPrefix)
    ensures ExtractVideoId(u).VideoId? && '/' !in ExtractVideoId(u).id
  {
  }

  /** The watch URLs exercised by the repository's tests, after parsing. */
  lemma ExampleWatchUrls()
    ensures ExtractVideoId(ParsedUrl(Some("www.youtube.com"), "/watch", map["v" := ["dQw4w9WgXcQ"]])) == VideoId("dQw4w9WgXcQ")
    ensures ExtractVideoId(ParsedUrl(Some("www.youtube.com"), "/watch", map["v" := ["dQw4w9WgXcQ"], "t" := ["30s"]])) == VideoId("dQw4w9WgXcQ")
  {
  }

  /** The prefixed URLs exercised by the repository's tests, after parsing. */
  lemma ExamplePrefixedUrls()
    ensures ExtractVideoId(ParsedUrl(Some("www.youtube.com"), "/embed/dQw4w9WgXcQ", map[])) == VideoId("dQw4w9WgXcQ")
    ensures ExtractVideoId(ParsedUrl(Some("www.youtube.com"), "/v/dQw4w9WgXcQ", map[])) == VideoId("dQw4w9WgXcQ")
  {
    var id := "dQw4w9WgXcQ";
    assert '/' !in id;
    assert EmbedPrefix + id + "" == "/embed/dQw4w9WgXcQ";
    assert LegacyPrefix + id + "" == "/v/dQw4w9WgXcQ";
    EmbedRoundTrip(Some("www.youtube.com"), EmbedPrefix, id, "", map[]);
    EmbedRoundTrip(Some("www.youtube.com"), LegacyPrefix, id, "", map[]);
  }

  /** The short link and the two ID-less URLs exercised by the repository's tests. */
  lemma ExampleOtherUrls()
    ensures ExtractVideoId(ParsedUrl(Some("youtu.be"), "/dQw4w9WgXcQ", map[])) == VideoId("dQw4w9WgXcQ")
    ensures ExtractVideoId(ParsedUrl(Some("example.com"), "/video", map[])) == NoMatch
    ensures ExtractVideoId(ParsedUrl(Some("www.youtube.com"), "/", map[])) == NoMatch
  {
    assert "/" + "dQw4w9WgXcQ" == "/dQw4w9WgXcQ";
    ShortLinkRoundTrip("dQw4w9WgXcQ", map[]);
  }
}
