/**
 * Title resolution (`get_title_via_api` and `get_video_title`): an ordered
 * chain of three strategies where the first truthy answer wins and the
 * sentinel "Unknown Title" stands in when none answers.
 *
 * The strategies' network and library work is not modelled: the pytube
 * lookup and the page scrape arrive as their results, and the oEmbed
 * endpoint as a function from request URL to HTTP outcome.
 */
module TitleResolver {
  import opened Wrappers
  import opened VideoUrl

  const UnknownTitle := "Unknown Title"

  /**
   * The JSON body of an oEmbed reply. `NotJson` covers every body on which
   * the lookup raises inside the `try`: one that is not JSON (`.json()`
   * raises) and JSON that is not an object, such as a list (`.get` raises).
   */
  datatype OEmbedBody = Json(title: Option<string>) | NotJson

  /** An HTTP GET either answers with a status and body or raises. */
  datatype HttpOutcome = Response(status: int, body: OEmbedBody) | RequestFailed

  /** One consultation of a strategy; an oEmbed call records the URL it requested. */
  datatype Strategy = Pytube | OEmbed(requestUrl: string) | Scrape

  /** A title, or the `KeyError` escaping from the unguarded ID extraction. */
  datatype TitleOutcome = Title(title: string) | Raised(key: string)

  /** The outcome together with the strategies consulted, in order. */
  datatype Resolution = Resolution(outcome: TitleOutcome, consulted: seq<Strategy>)

  /** The oEmbed request URL for a video ID. */
  function OEmbedUrl(id: string): (url: string)
    ensures |url| == |OEmbedUrlStart| + |id| + |OEmbedUrlEnd|
    ensures url[..|OEmbedUrlStart|] == OEmbedUrlStart
    ensures url[|OEmbedUrlStart|..|url| - |OEmbedUrlEnd|] == id
    ensures url[|url| - |OEmbedUrlEnd|..] == OEmbedUrlEnd
  {
    OEmbedUrlStart + id + OEmbedUrlEnd
  }

  const OEmbedUrlStart := "https://www.youtube.com/oembed?url=https://www.youtube.com/watch?v="
  const OEmbedUrlEnd := "&format=json"

  /**
   * The decision of `get_title_via_api`: only a 200 reply with a JSON body
   * yields a title, and a missing `title` field yields the sentinel.
   */
  function TitleViaApi(resp: HttpOutcome): (r: Option<string>)
    ensures r.Some? <==> resp.Response? && resp.status == 200 && resp.body.Json?
    ensures r.Some? && resp.body.title.Some? ==> r.value == resp.body.title.value
    ensures r.Some? && resp.body.title.None? ==> r.value == UnknownTitle
  {
    match resp
    case RequestFailed => None
    case Response(status, body) =>
      if status != 200 then None
      else match body
        case NotJson => None
        case Json(title) => Some(title.GetOr(UnknownTitle))
  }

  /** What a consulted strategy answered. */
  function Answer(s: Strategy, pytube: Option<string>, server: string -> HttpOutcome,
                  scrape: Option<string>): Option<string>
  {
    match s
    case Pytube => pytube
    case OEmbed(url) => TitleViaApi(server(url))
    case Scrape => scrape
  }

  /** The ID handed to the oEmbed step, when extraction gives a truthy one. */
  function TruthyId(r: IdResult): Option<string>
  {
    if r.VideoId? && r.id != "" then Some(r.id) else None
  }

  /** The strategies in the order the chain tries them (before short-circuiting). */
  function Plan(id: Option<string>): (plan: seq<Strategy>)
    ensures 2 <= |plan| <= 3
    ensures plan[0] == Pytube && plan[|plan| - 1] == Scrape
    ensures id.None? <==> |plan| == 2
    ensures id.Some? ==> plan[1] == OEmbed(OEmbedUrl(id.value))
  {
    match id
    case None => [Pytube, Scrape]
    case Some(v) => [Pytube, OEmbed(OEmbedUrl(v)), Scrape]
  }

  /**
   * "First truthy wins": the first candidate that is a non-empty string,
   * or `default` when there is none.
   */
  function FirstTruthy(candidates: seq<Option<string>>, default: string): (r: string)
    ensures (forall i :: 0 <= i < |candidates| ==> !Truthy(candidates[i])) ==> r == default
    ensures (exists i :: 0 <= i < |candidates| && Truthy(candidates[i])) ==>
              exists i :: 0 <= i < |candidates| && candidates[i] == Some(r) && r != ""
                          && forall j :: 0 <= j < i ==> !Truthy(candidates[j])
  {
    if |candidates| == 0 then default
    else if Truthy(candidates[0]) then candidates[0].value
    else
      var r := FirstTruthy(candidates[1..], default);
      assert forall i :: 1 <= i < |candidates| ==> candidates[i] == candidates[1..][i - 1];
      r
  }

  /** Consults `plan` in order and stops at the first truthy answer. */
  function RunPlan(plan: seq<Strategy>, pytube: Option<string>, server: string -> HttpOutcome,
                   scrape: Option<string>): (r: Resolution)
    ensures r.outcome.Title? && r.consulted <= plan
    ensures |plan| > 0 ==> |r.consulted| > 0
    ensures forall i :: 0 <= i < |r.consulted| - 1 ==> !Truthy(Answer(r.consulted[i], pytube, server, scrape))
    ensures |r.consulted| < |plan| ==> Truthy(Answer(r.consulted[|r.consulted| - 1], pytube, server, scrape))
    ensures |r.consulted| > 0 && Truthy(Answer(r.consulted[|r.consulted| - 1], pytube, server, scrape)) ==>
              r.outcome.title == Answer(r.consulted[|r.consulted| - 1], pytube, server, scrape).value
    ensures (|r.consulted| == 0 || !Truthy(Answer(r.consulted[|r.consulted| - 1], pytube, server, scrape))) ==>
              r.outcome.title == UnknownTitle
  {
    if |plan| == 0 then Resolution(Title(UnknownTitle), [])
    else
      var a := Answer(plan[0], pytube, server, scrape);
      if Truthy(a) then Resolution(Title(a.value), [plan[0]])
      else
        var rest := RunPlan(plan[1..], pytube, server, scrape);
        var consulted := [plan[0]] + rest.consulted;
        assert forall i :: 1 <= i < |consulted| ==> consulted[i] == rest.consulted[i - 1];
        assert |rest.consulted| > 0 ==> consulted[|consulted| - 1] == rest.consulted[|rest.consulted| - 1];
        assert |rest.consulted| == 0 ==> consulted == [plan[0]] && |plan| == 1;
        Resolution(rest.outcome, consulted)
  }

  /**
   * `get_video_title` as written: pytube first; otherwise the ID extraction
   * runs unguarded (so its `KeyError` escapes), oEmbed is asked only for a
   * truthy ID, then scraping, then the sentinel.
   */
  function GetVideoTitle(u: ParsedUrl, pytube: Option<string>, server: string -> HttpOutcome,
                         scrape: Option<string>): (r: Resolution)
    ensures r.outcome.Raised? <==> !Truthy(pytube) && ExtractVideoId(u).MissingKey?
    ensures r.outcome.Raised? ==> r.outcome.key == "v" && r.consulted == [Pytube]
    ensures r.outcome.Title? ==> r.outcome.title != "" && r.consulted <= Plan(TruthyId(ExtractVideoId(u)))
    ensures Truthy(pytube) ==> r == Resolution(Title(pytube.value), [Pytube])
  {
    if Truthy(pytube) then Resolution(Title(pytube.value), [Pytube])
    else
      var id := ExtractVideoId(u);
      if id.MissingKey? then Resolution(Raised(id.key), [Pytube])
      else RunPlan(Plan(TruthyId(id)), pytube, server, scrape)
  }

  /**
   * `get_video_title` with the extraction guarded: a `/watch` URL without
   * `v` counts as "no ID" and the chain goes on to scraping, so that, like
   * every other path through the function, it ends in a title and at worst
   * in "Unknown Title".
   */
  function GetVideoTitleGuarded(u: ParsedUrl, pytube: Option<string>, server: string -> HttpOutcome,
                                scrape: Option<string>): (r: Resolution)
    ensures r.outcome.Title? && r.outcome.title != ""
    ensures r.consulted <= Plan(TruthyId(ExtractVideoId(u)))
    ensures Truthy(pytube) ==> r == Resolution(Title(pytube.value), [Pytube])
  {
    RunPlan(Plan(TruthyId(ExtractVideoId(u))), pytube, server, scrape)
  }

  /** The answers the strategies of `plan` would give, in order. */
  function Answers(plan: seq<Strategy>, pytube: Option<string>, server: string -> HttpOutcome,
                   scrape: Option<string>): (answers: seq<Option<string>>)
    ensures |answers| == |plan|
    ensures forall i :: 0 <= i < |plan| ==> answers[i] == Answer(plan[i], pytube, server, scrape)
  {
    if |plan| == 0 then []
    else [Answer(plan[0], pytube, server, scrape)] + Answers(plan[1..], pytube, server, scrape)
  }

  /** Consulting strategies one by one computes "first truthy wins" over all their answers. */
  lemma {:induction false} RunPlanIsFirstTruthy(plan: seq<Strategy>, pytube: Option<string>,
                                                server: string -> HttpOutcome, scrape: Option<string>)
    ensures RunPlan(plan, pytube, server, scrape).outcome
            == Title(FirstTruthy(Answers(plan, pytube, server, scrape), UnknownTitle))
    decreases |plan|
  {
    var answers := Answers(plan, pytube, server, scrape);
    if |plan| > 0 {
      RunPlanIsFirstTruthy(plan[1..], pytube, server, scrape);
      assert answers[1..] == Answers(plan[1..], pytube, server, scrape);
    }
  }

  /**
   * Whenever `get_video_title` does not raise, its title is the first truthy
   * answer among pytube, oEmbed (for a truthy ID) and scraping, else the sentinel.
   */
  lemma TitleIsFirstTruthyAnswer(u: ParsedUrl, pytube: Option<string>, server: string -> HttpOutcome,
                                 scrape: Option<string>)
    requires GetVideoTitle(u, pytube, server, scrape).outcome.Title?
    ensures GetVideoTitle(u, pytube, server, scrape).outcome.title
            == FirstTruthy(Answers(Plan(TruthyId(ExtractVideoId(u))), pytube, server, scrape), UnknownTitle)
  {
    RunPlanIsFirstTruthy(Plan(TruthyId(ExtractVideoId(u))), pytube, server, scrape);
  }

  /** When every strategy is falsy the answer is exactly the sentinel, after all three were asked. */
  lemma AllFalsyGivesSentinel(u: ParsedUrl, pytube: Option<string>, server: string -> HttpOutcome,
                              scrape: Option<string>)
    requires !ExtractVideoId(u).MissingKey?
    requires !Truthy(pytube) && !Truthy(scrape)
    requires TruthyId(ExtractVideoId(u)).Some? ==>
               !Truthy(TitleViaApi(server(OEmbedUrl(TruthyId(ExtractVideoId(u)).value))))
    ensures GetVideoTitle(u, pytube, server, scrape)
            == Resolution(Title(UnknownTitle), Plan(TruthyId(ExtractVideoId(u))))
  {
  }

  /**
   * Pytube fails, the ID is truthy and oEmbed answers 200 with a title: that
   * title comes back after exactly one oEmbed request, and scraping is skipped.
   */
  lemma OEmbedFallback(u: ParsedUrl, pytube: Option<string>, server: string -> HttpOutcome,
                       scrape: Option<string>, title: string)
    requires !Truthy(pytube)
    requires ExtractVideoId(u).VideoId? && ExtractVideoId(u).id != ""
    requires server(OEmbedUrl(ExtractVideoId(u).id)) == Response(200, Json(Some(title)))
    requires title != ""
    ensures GetVideoTitle(u, pytube, server, scrape)
            == Resolution(Title(title), [Pytube, OEmbed(OEmbedUrl(ExtractVideoId(u).id))])
  {
  }

  /** oEmbed is consulted only for a truthy ID, and with that ID's request URL. */
  lemma OEmbedOnlyWithId(u: ParsedUrl, pytube: Option<string>, server: string -> HttpOutcome,
                         scrape: Option<string>, s: Strategy)
    requires s in GetVideoTitle(u, pytube, server, scrape).consulted && s.OEmbed?
    ensures ExtractVideoId(u).VideoId? && ExtractVideoId(u).id != ""
    ensures s.requestUrl == OEmbedUrl(ExtractVideoId(u).id)
  {
  }

  /** Concrete witness: a `/watch` URL without `v` makes `get_video_title` raise once pytube fails. */
  lemma UnguardedExtractionRaises(server: string -> HttpOutcome)
    ensures GetVideoTitle(ParsedUrl(Some("www.youtube.com"), "/watch", map["list" := ["PL1"]]),
                          None, server, Some("Scraped Title")).outcome == Raised("v")
    ensures GetVideoTitleGuarded(ParsedUrl(Some("www.youtube.com"), "/watch", map["list" := ["PL1"]]),
                                 None, server, Some("Scraped Title")).outcome == Title("Scraped Title")
  {
    var u := ParsedUrl(Some("www.youtube.com"), "/watch", map["list" := ["PL1"]]);
    assert IsLongHost(u.hostname) && u.path == WatchPath && "v" !in u.query;
    assert ExtractVideoId(u) == MissingKey("v");
    assert Plan(TruthyId(ExtractVideoId(u))) == [Pytube, Scrape];
  }

  /** Where the written chain does not raise, the guarded chain agrees with it exactly. */
  lemma GuardedAgreesUnlessRaised(u: ParsedUrl, pytube: Option<string>, server: string -> HttpOutcome,
                                  scrape: Option<string>)
    requires GetVideoTitle(u, pytube, server, scrape).outcome.Title?
    ensures GetVideoTitleGuarded(u, pytube, server, scrape) == GetVideoTitle(u, pytube, server, scrape)
  {
  }

  /**
   * To the caller, an oEmbed reply with any status other than 200 is
   * indistinguishable from a request that raised.
   */
  lemma NonOkStatusIsFailure(u: ParsedUrl, pytube: Option<string>, scrape: Option<string>,
                             status: int, body: OEmbedBody)
    requires status != 200
    ensures GetVideoTitle(u, pytube, _ => Response(status, body), scrape)
            == GetVideoTitle(u, pytube, _ => RequestFailed, scrape)
  {
  }
}
