# yt-tutor core, modelled in Dafny

yt-tutor is a small "chat with a YouTube video" tool. Most of it is glue
around Streamlit, pytube, the YouTube transcript API, HuggingFace
embeddings, FAISS and a Groq-hosted LLM. This project models the three
pieces of logic the repository owns:

- **Video-ID extraction** (`get_video_id_from_url`, module `VideoUrl`).
  It dispatches on the hostname (`youtu.be`, `youtube.com`, `www.youtube.com`)
  and the path shape (`/watch`, `/embed/`, `/v/`). The URL arrives already
  split into hostname, path and query, in the sense of section 3 of RFC 3986.
  The result is an ID, `None` (`NoMatch`), or the `KeyError` that a `/watch`
  URL without `v` raises (`MissingKey("v")`).
- **Title resolution** (`get_title_via_api`, `get_video_title`, module
  `TitleResolver`). This is a "first truthy answer wins" chain: pytube first,
  then oEmbed (only for a truthy ID), then page scraping, then the sentinel
  `"Unknown Title"`. Each strategy is an opaque input. The oEmbed endpoint is a
  function from request URL to HTTP outcome. Each result records which
  strategies were consulted, in order.
- **Transcript fetch and save** (`get_video_transcript`,
  `save_transcript_to_file` and the "Fetch Transcript" button; modules
  `Transcript`, `Persist`, `FetchFlow`). Segments are joined with single
  spaces. Each provider failure maps to `None` plus the message of the first
  `except` clause that catches it. The filesystem is a
  `map<string, string>`, and a save overwrites one key or, on a bad
  extension, changes nothing.

`PyText` holds the parts of Python's `str` and `os.path` behaviour these
functions rely on: clamped slices, `split`, `join`, `endswith`, and POSIX
`basename`. `Wrappers` holds `Option` and Python truthiness for an optional
string.

Two behaviours of the code are worth stating up front, because a reader
might expect otherwise:

- A `/watch` URL without a `v` parameter raises `KeyError` at sample.py:13.
  It is not turned into "no identifier". Because `get_video_title` calls the
  extraction without a guard (sample.py:71), the title chain can raise too.
  Every other path through `get_video_title` ends in a title, at worst
  "Unknown Title" (sample.py:84-85), and its docstring (sample.py:61)
  promises to "try multiple methods". So the raise looks unintended. See
  Findings.
- An oEmbed reply with status 200 and no `title` field yields the literal
  `"Unknown Title"` (sample.py:27). It does not yield "no result". That string
  is truthy, so the chain stops there and scraping is not tried.
- The tests import `get_video_id_from_url` and `get_video_title` from
  `main`, but both are defined only in sample.py. The model follows
  sample.py, and the tests' expectations match it.

## Model

| member | source | states |
|---|---|---|
| PyText.Head | sample.py:14 | `s[:n]` is a prefix of `s` of length `min(n, len(s))` |
| PyText.Tail | sample.py:10 | `s[n:]` is what remains after the first `n` characters, empty when `n` passes the end |
| PyText.HeadIsPrefixTest | sample.py:14-16 | comparing `path[:7]` with `'/embed/'` (or `path[:3]` with `'/v/'`) is exactly a prefix test |
| PyText.Split | sample.py:15 | `split('/')` gives at least one piece, no piece contains the separator, and joining the pieces with it gives back the string |
| PyText.SplitAtFirst | sample.py:15 | text before the first separator becomes the first piece, and the rest splits on its own |
| PyText.SplitNoSeparator | sample.py:15 | a string with no separator splits into itself alone |
| PyText.SplitFirstIsFirstSegment | sample.py:15 | the first piece of a split is the longest separator-free prefix |
| PyText.FirstSegment | sample.py:15 | the longest prefix without the separator, followed in the string by the separator or the end |
| PyText.FirstSegmentOfWord | sample.py:15 | a separator-free word followed by a separator (or nothing) is the first segment |
| PyText.SplitJoin | main.py:37 | `split` undoes `join` when no part contains the separator: content and order survive the join |
| PyText.JoinLength | main.py:37 | a join is as long as its parts plus one separator between each adjacent pair |
| PyText.JoinSplitAt | main.py:37 | a join cut after any part is the join of the first parts, one separator, and the join of the rest |
| PyText.JoinStartsWithFirst | main.py:37 | a join starts with its first part, followed by the separator when more parts follow |
| PyText.JoinPlacesPart | main.py:37 | every part sits at its offset in the join, and a separator follows it unless it is the last |
| PyText.JoinPlacesEveryPart | main.py:37 | the placement holds for all parts at once |
| PyText.Basename | main.py:67 | the basename holds no '/', is a suffix of the path, and follows a '/' unless it is the whole path |
| PyText.BasenameOfPlainName | main.py:67 | a name without '/' is its own basename |
| PyText.BasenameAfterSlash | main.py:67 | `basename(dir + "/" + name)` is `name` for any directory part |
| PyText.BasenameIdempotent | main.py:67 | taking the basename twice equals taking it once |
| PyText.EndsWithAppended | main.py:69 | any name of the form stem + ".txt" passes the extension check |
| VideoUrl.SecondSegment | sample.py:15-17 | `path.split('/')[2]` for a `/word/...` path is the longest '/'-free text after the prefix |
| VideoUrl.ExtractVideoId | sample.py:6-18 | the result per shape: `youtu.be` gives `path[1:]`; `/watch` gives the first `v` value, or raises KeyError on `v` when it is absent; `/embed/` and `/v/` give the segment after the prefix; every other host or path gives None |
| VideoUrl.ShortLinkRoundTrip | sample.py:9-10 | `youtu.be/<id>` yields `<id>`, later '/' segments included |
| VideoUrl.WatchRoundTrip | sample.py:12-13 | `/watch` with `v=<id>` first yields `<id>`, whatever other values follow |
| VideoUrl.OtherParametersIgnored | sample.py:13 | adding or changing any query parameter other than `v` never changes the result |
| VideoUrl.EmbedRoundTrip | sample.py:14-17 | `/embed/<id>` and `/v/<id>` yield `<id>` for a '/'-free ID; anything after a further '/' is ignored |
| VideoUrl.ForeignHostHasNoId | sample.py:11 | a hostname other than the three YouTube ones gives None |
| VideoUrl.PrefixedIdHasNoSlash | sample.py:14-17 | the embed and legacy shapes always give an ID, and it contains no '/' |
| VideoUrl.ExampleWatchUrls | tests/test_main.py:22-30 | the two watch URLs of the tests give `dQw4w9WgXcQ`, with `t=30s` ignored |
| VideoUrl.ExamplePrefixedUrls | tests/test_main.py:37-45 | the embed and `/v/` URLs of the tests give `dQw4w9WgXcQ` |
| VideoUrl.ExampleOtherUrls | tests/test_main.py:32-55 | the short link gives the ID; `example.com/video` and `www.youtube.com/` give None |
| TitleResolver.OEmbedUrl | sample.py:23 | the oEmbed request URL is the fixed watch-URL prefix, then the ID, then `&format=json` |
| TitleResolver.TitleViaApi | sample.py:20-30 | a title comes back only for status 200 with a JSON body; a missing `title` gives "Unknown Title"; any other status or an exception gives None |
| TitleResolver.NonOkStatusIsFailure | sample.py:25-30 | to `get_video_title`, an oEmbed reply with any status other than 200 is the same as a request that raised |
| TitleResolver.Plan | sample.py:64-82 | pytube first, scraping last, and oEmbed in between exactly when the ID is truthy, requested with that ID's URL; no other strategy, so at most three |
| TitleResolver.FirstTruthy | sample.py:66-85 | the result is the first non-empty candidate, with every earlier one falsy, or the default when none is truthy |
| TitleResolver.RunPlan | sample.py:64-85 | strategies are consulted in order and consulting stops at the first truthy answer; every earlier strategy was falsy; the title is that answer, or "Unknown Title" |
| TitleResolver.Answers | sample.py:64-82 | the answers list has one entry per planned strategy, in order |
| TitleResolver.GetVideoTitle | sample.py:60-85 | raises exactly when pytube is falsy and extraction raises; otherwise gives a non-empty title from a prefix of the plan; a truthy pytube title is returned with no other strategy consulted |
| TitleResolver.GetVideoTitleGuarded | sample.py:70-85 | with the extraction guarded, the chain always gives a non-empty title, from a prefix of the plan |
| TitleResolver.RunPlanIsFirstTruthy | sample.py:64-85 | the short-circuiting loop computes "first truthy wins" over all planned answers |
| TitleResolver.TitleIsFirstTruthyAnswer | sample.py:60-85 | when it does not raise, the title is the first truthy answer among pytube, oEmbed and scraping, else the sentinel |
| TitleResolver.AllFalsyGivesSentinel | sample.py:84-85 | when every strategy is falsy, the answer is exactly "Unknown Title", after every planned strategy was asked |
| TitleResolver.OEmbedFallback | sample.py:70-76 | pytube failing and oEmbed answering 200 with a title gives that title after one oEmbed request, and scraping is skipped |
| TitleResolver.OEmbedOnlyWithId | sample.py:71-73 | oEmbed is consulted only for a truthy ID, and with that ID's request URL |
| TitleResolver.UnguardedExtractionRaises | sample.py:71 | a `/watch` URL with no `v` makes the as-written chain raise, where the guarded chain returns the scraped title |
| TitleResolver.GuardedAgreesUnlessRaised | sample.py:70-85 | wherever the as-written chain returns a title, the guarded chain returns the same title and consults the same strategies |
| Transcript.FirstCatching | main.py:39-59 | the chosen handler catches the exception, and no earlier handler does |
| Transcript.GetVideoTranscript | main.py:24-59 | text comes back exactly when the provider delivered segments: each segment sits at its offset in provider order, followed by one space unless it is the last, and the length is the segments' total plus n-1 (zero segments give ""); otherwise None, plus the message of the exception's own handler; one of the two is always present |
| Transcript.HandlerChainIsExact | main.py:39-59 | every exception kind is caught, by its own handler, so none escapes |
| Transcript.MessagesDistinct | main.py:40-57 | the five failure categories show five different messages |
| Transcript.JoinedLength | main.py:37 | the transcript's length is the segments' total length plus n-1 |
| Transcript.JoinedSegmentsRecoverable | main.py:37 | splitting the transcript on spaces gives back the space-free segments in provider order |
| Transcript.NoSegmentsGiveEmptyText | main.py:37 | zero segments give the empty, falsy transcript |
| Transcript.ExampleJoin | tests/test_main.py:210-231 | `["Hello","world","test"]` gives `"Hello world test"` |
| Persist.SafeFilename | main.py:67 | the name written is the final path component: a '/'-free suffix of the requested name that follows a '/' or is the whole name |
| Persist.SaveTranscript | main.py:62-72 | it succeeds exactly when the safe name ends in ".txt"; on error it raises the invalid-extension error and changes nothing; on success the safe name holds exactly the transcript and no other file changes |
| Persist.SaveIsUpdate | main.py:69-72 | once the extension check passes, a save is exactly one update of the safe name to the text |
| Persist.SaveThenRead | main.py:71-72 | after a successful save, reading the safe name gives back exactly the text |
| Persist.SaveIdempotent | main.py:71-72 | saving the same text twice leaves the same state as saving it once |
| Persist.SaveOverwrites | main.py:71 | the file's old content has no bearing on the result, so the save overwrites and never appends |
| Persist.DirectoryPartIgnored | main.py:67 | saving to `dir/name` is the same as saving to `name` |
| Persist.NoFileOutsideDirectory | main.py:67-72 | a save never creates a file whose name contains '/' |
| Persist.SafeFilenameIdempotent | main.py:67 | sanitising a safe name changes nothing |
| Persist.DefaultFilenameAccepted | main.py:62 | the default name `transcript.txt` is accepted, so a save with it always succeeds |
| Persist.ExamplePathInjection | tests/test_main.py:188-198 | `../dangerous_file.txt` is written as `dangerous_file.txt` and nothing else changes |
| Persist.ExampleWrongExtension | tests/test_main.py:181-186 | `test.pdf` is rejected with the invalid-extension error and the filesystem unchanged |
| FetchFlow.PressFetch | main.py:83-103 | an empty URL only shows a message; files and session change only for a truthy transcript, which then fills `transcript.txt` and the session; a falsy one ends with "Failed to fetch transcript." and nothing written |
| FetchFlow.FailureShowsBothMessages | main.py:85-101 | a provider failure shows its category message, then the generic failure, and writes nothing |
| FetchFlow.EmptyTranscriptNotSaved | main.py:86-101 | zero segments count as a failure: no file is written and the session is untouched |
| FetchFlow.SavedFileMatchesSession | main.py:86-89 | after a successful press, `transcript.txt` holds exactly the session's transcript |

## Left out

- The Streamlit UI beyond the fetch button's branch structure, session-state plumbing, text splitting, embeddings, FAISS search and the Groq chain (main.py:75-125): these are UI plumbing and opaque library calls.
- dotenv and environment loading (main.py:19-21): process configuration, not logic.
- `requests.get`, the `pytube.YouTube` constructor and its attributes, and `YouTubeTranscriptApi` (sample.py:23-24, 38, 54; main.py:31-35). Their results are inputs: `Option<string>` for pytube and scraping, an `HttpOutcome` function for oEmbed, and a `ProviderOutcome` for the transcript provider.
- The provider's exception classes are modelled as disjoint kinds. The library's subclass hierarchy is not part of this model, so the model cannot show whether the handler order shadows any handler.
- Regex scraping and `unicode_escape` decoding (sample.py:41-45): these depend on page markup and Python codec behaviour. The scrape result is an opaque `Option<string>`.
- `urlparse` and `parse_qs` internals, such as hostname lower-casing, port stripping and percent-decoding. The input is a pre-parsed record whose query maps each key to at least one value, as `parse_qs` produces.
- TitleResolver.TitleViaApi: a JSON `title` that is present but not a string (for example `null`) is not modelled. The field is either a string or absent.
- TitleResolver.GetVideoTitle: it raises only `KeyError`, since its input is an already-parsed URL. A URL that `urlparse` itself rejects, such as `https://[::1/watch` (an unbalanced bracket in the host), has no `ParsedUrl`. `get_video_title` raises `ValueError` for it at sample.py:8, through the same unguarded call at sample.py:71. The model does not cover this.
- Real file I/O, UTF-8 encoding and I/O errors such as permission failures: the filesystem is a map from name to content. Only '/' is treated as a path separator.
- `print` logging, and test_runner.py: subprocess and argparse plumbing with no logic to verify.

## Findings

| source | as written | input that shows it | evidently intended | confidence | as-written member | corrected member |
|---|---|---|---|---|---|---|
| sample.py:71 | `get_video_title` calls `get_video_id_from_url` outside any `try`, so its `KeyError` escapes | `https://www.youtube.com/watch?list=PL1` with pytube failing: raises KeyError `'v'` and scraping is never tried | a missing `v` is meant to count as no ID, since the chain otherwise always falls back to "Unknown Title" (sample.py:84-85): it goes on to scraping and the sentinel | medium, not executed | TitleResolver.UnguardedExtractionRaises | TitleResolver.GetVideoTitleGuarded |
