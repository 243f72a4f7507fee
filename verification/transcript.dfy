/**
 * Transcript retrieval (`get_video_transcript`): the provider's segments are
 * joined with single spaces, and every failure becomes "no transcript" plus
 * the message of the first handler that catches it.
 *
 * The provider (pytube's ID lookup, listing, English selection and fetch)
 * is not modelled; its combined result arrives as a `ProviderOutcome`.
 */
module Transcript {
  import opened Wrappers
  import opened PyText

  /** What the provider produced: the segments' text fields in order, or the exception it raised. */
  datatype ProviderOutcome =
    | Segments(texts: seq<string>)
    | Failed(exc: ProviderException)

  /** The exceptions the provider can raise, as disjoint kinds. */
  datatype ProviderException =
    | TranscriptsDisabled
    | NoTranscriptFound
    | VideoUnavailable
    | CouldNotRetrieveTranscript
    | OtherException

  /** The `except` clauses, one per message category. */
  datatype Handler = OnDisabled | OnNotFound | OnUnavailable | OnRetrievalFailure | OnAnyException

  /** The handlers in the order they are written. */
  const Handlers: seq<Handler> := [OnDisabled, OnNotFound, OnUnavailable, OnRetrievalFailure, OnAnyException]

  /** Whether an `except` clause catches an exception; the last one catches everything. */
  predicate Catches(h: Handler, e: ProviderException) {
    match h
    case OnDisabled => e == TranscriptsDisabled
    case OnNotFound => e == NoTranscriptFound
    case OnUnavailable => e == VideoUnavailable
    case OnRetrievalFailure => e == CouldNotRetrieveTranscript
    case OnAnyException => true
  }

  /** The first handler in `handlers` that catches `e`, if any. */
  function FirstCatching(handlers: seq<Handler>, e: ProviderException): (r: Option<Handler>)
    ensures r.Some? <==> exists i :: 0 <= i < |handlers| && Catches(handlers[i], e)
    ensures r.Some? ==> exists i :: 0 <= i < |handlers| && handlers[i] == r.value && Catches(r.value, e)
                          && forall j :: 0 <= j < i ==> !Catches(handlers[j], e)
  {
    if |handlers| == 0 then None
    else if Catches(handlers[0], e) then Some(handlers[0])
    else
      var r := FirstCatching(handlers[1..], e);
      assert forall i :: 1 <= i < |handlers| ==> handlers[i] == handlers[1..][i - 1];
      r
  }

  /** The user-facing errors, one per handler. */
  const DisabledMessage := "Transcripts are disabled for this video. Please try another video."
  const NotFoundMessage := "No English transcript found for this video. Please try another video."
  const UnavailableMessage := "The video is unavailable. Please check the URL or try another video."
  const RetrievalFailureMessage := "Could not retrieve the transcript due to a network or API issue. Please try again later."
  const UnexpectedMessage := "An unexpected error occurred. Please check the video URL and try again."

  /** The user-facing error shown by each handler. */
  function Message(h: Handler): string
  {
    match h
    case OnDisabled => DisabledMessage
    case OnNotFound => NotFoundMessage
    case OnUnavailable => UnavailableMessage
    case OnRetrievalFailure => RetrievalFailureMessage
    case OnAnyException => UnexpectedMessage
  }

  /** The handler that owns each exception kind. */
  function HandlerFor(e: ProviderException): Handler
  {
    match e
    case TranscriptsDisabled => OnDisabled
    case NoTranscriptFound => OnNotFound
    case VideoUnavailable => OnUnavailable
    case CouldNotRetrieveTranscript => OnRetrievalFailure
    case OtherException => OnAnyException
  }

  /** The function's result: the text (`None` on failure) and the error message it showed, if any. */
  datatype FetchResult = FetchResult(text: Option<string>, shown: Option<string>)

  function GetVideoTranscript(o: ProviderOutcome): (r: FetchResult)
    ensures r.text.Some? <==> o.Segments?
    ensures r.text.None? <==> r.shown.Some?
    ensures o.Failed? ==> r.shown == Some(Message(HandlerFor(o.exc)))
    ensures o.Segments? && |o.texts| == 0 ==> r.text == Some("")
    ensures o.Segments? && |o.texts| > 0 ==>
              |r.text.value| == TotalLength(o.texts) + |o.texts| - 1
    ensures o.Segments? ==>
              forall i :: 0 <= i < |o.texts| ==> PlacedAt(r.text.value, " ", o.texts, i)
  {
    match o
    case Segments(texts) =>
      var text := Join(" ", texts);
      JoinPlacesEveryPart(" ", texts);
      if |texts| > 0 then
        JoinLength(" ", texts);
        FetchResult(Some(text), None)
      else
        FetchResult(Some(text), None)
    case Failed(e) =>
      var h := FirstCatching(Handlers, e);
      HandlerChainIsExact(e);
      FetchResult(None, Some(Message(h.value)))
  }

  /** The handler chain routes every exception kind to its own handler and never lets one escape. */
  lemma HandlerChainIsExact(e: ProviderException)
    ensures FirstCatching(Handlers, e) == Some(HandlerFor(e))
  {
  }

  /** The five categories are told apart by their messages. */
  lemma MessagesDistinct(h1: Handler, h2: Handler)
    requires h1 != h2
    ensures Message(h1) != Message(h2)
  {
    MessageLength(h1);
    MessageLength(h2);
  }

  /** The messages have five different lengths, which tells them apart cheaply. */
  lemma MessageLength(h: Handler)
    ensures |Message(h)| == match h
                            case OnDisabled => 66
                            case OnNotFound => 69
                            case OnUnavailable => 68
                            case OnRetrievalFailure => 88
                            case OnAnyException => 71
  {
  }

  /** The joined text is as long as the segments plus one space between each pair. */
  lemma JoinedLength(texts: seq<string>)
    requires |texts| >= 1
    ensures |GetVideoTranscript(Segments(texts)).text.value| == TotalLength(texts) + |texts| - 1
  {
    JoinLength(" ", texts);
  }

  /**
   * When no segment holds a space, splitting the transcript on spaces gives
   * back the segments in provider order: joining keeps both content and order.
   */
  lemma JoinedSegmentsRecoverable(texts: seq<string>)
    requires |texts| >= 1
    requires forall i :: 0 <= i < |texts| ==> ' ' !in texts[i]
    ensures Split(GetVideoTranscript(Segments(texts)).text.value, ' ') == texts
  {
    SplitJoin(texts, ' ');
  }

  /** Zero segments give the empty, falsy transcript. */
  lemma NoSegmentsGiveEmptyText()
    ensures GetVideoTranscript(Segments([])).text == Some("")
  {
  }

  /** The repository's success example: three segments joined with single spaces. */
  lemma ExampleJoin()
    ensures GetVideoTranscript(Segments(["Hello", "world", "test"])).text == Some("Hello world test")
  {
    var texts := ["Hello", "world", "test"];
    assert texts[1..] == ["world", "test"];
    assert texts[1..][1..] == ["test"];
    assert Join(" ", ["test"]) == "test";
    assert Join(" ", ["world", "test"]) == "world test";
    assert Join(" ", texts) == "Hello world test";
  }
}
