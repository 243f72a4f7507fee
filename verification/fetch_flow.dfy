/**
 * The "Fetch Transcript" button: fetch the transcript, and only when it is
 * truthy save it under the default name and keep it in the session.
 *
 * Chunking, embedding and question answering that follow are not modelled.
 */
module FetchFlow {
  import opened Wrappers
  import opened Transcript
  import opened Persist

  const EmptyUrlMessage := "Please enter a valid YouTube video URL."
  const FailedMessage := "Failed to fetch transcript."
  const SavedMessage := "Transcript fetched and saved successfully!"
  const ProcessedMessage := "Transcript processed successfully!"

  /** What the button handler touches: the files, the session's transcript, and the messages shown. */
  datatype AppState = AppState(fs: FileSystem, session: Option<string>, shown: seq<string>)

  /** One press of the button, with `url` as typed and `provider` as the provider's outcome for it. */
  function PressFetch(st: AppState, url: string, provider: ProviderOutcome): (r: AppState)
    ensures url == "" ==> r == st.(shown := st.shown + [EmptyUrlMessage])
    ensures r.fs != st.fs ==> url != "" && provider.Segments?
    ensures st.shown < r.shown
    ensures url != "" && !Truthy(GetVideoTranscript(provider).text) ==>
              r.fs == st.fs && r.session == st.session && r.shown[|r.shown| - 1] == FailedMessage
    ensures url != "" && Truthy(GetVideoTranscript(provider).text) ==>
              var t := GetVideoTranscript(provider).text.value;
              r.fs == st.fs[DefaultFilename := t] && r.session == Some(t)
  {
    if url == "" then st.(shown := st.shown + [EmptyUrlMessage])
    else
      var fetched := GetVideoTranscript(provider);
      var errors := if fetched.shown.Some? then [fetched.shown.value] else [];
      if Truthy(fetched.text) then
        var saved := SaveTranscript(st.fs, fetched.text.value, DefaultFilename);
        DefaultFilenameAccepted(st.fs, fetched.text.value);
        AppState(saved.fs, fetched.text, st.shown + errors + [SavedMessage, ProcessedMessage])
      else
        AppState(st.fs, st.session, st.shown + errors + [FailedMessage])
  }

  /** A provider failure shows its own message and then the generic failure, and writes nothing. */
  lemma FailureShowsBothMessages(st: AppState, url: string, e: ProviderException)
    requires url != ""
    ensures PressFetch(st, url, Failed(e))
            == st.(shown := st.shown + [Message(HandlerFor(e)), FailedMessage])
  {
  }

  /** Zero segments give an empty transcript, which counts as a failure: no file is written. */
  lemma EmptyTranscriptNotSaved(st: AppState, url: string)
    requires url != ""
    ensures PressFetch(st, url, Segments([])) == st.(shown := st.shown + [FailedMessage])
  {
    NoSegmentsGiveEmptyText();
  }

  /** After a successful press, the default file holds exactly what the session holds. */
  lemma SavedFileMatchesSession(st: AppState, url: string, provider: ProviderOutcome)
    requires url != "" && Truthy(GetVideoTranscript(provider).text)
    ensures ReadFile(PressFetch(st, url, provider).fs, DefaultFilename) == PressFetch(st, url, provider).session
  {
  }
}
