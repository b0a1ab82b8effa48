# fvdl download client: a Dafny model of its decision logic

fvdl is a browser page. A user pastes a YouTube or Facebook video URL, and
the page asks a remote download API for media links. It shows a preview and
one download button per available format. All of its logic lives in
`main.js`. This project models the deterministic rules inside that file and
proves properties of them:

- **Video-id extraction** (`getVideoIds`), module `VideoIds`. This is a
  decision table over the `http://`/`https://` prefix, the hostname, the
  pathname and the `v` query parameter. Facebook paths also use the first
  digit run after `/video/`, `/videos/` or `/reel/`.
- **Query-parameter lookup** (`getParameterByName`), module `QueryParams`.
  This is the leftmost match of `[?&]name(=([^&#]*)|&|#|$)`, with `+` turned
  into a space.
- **Format colours** (`getBackgroundColor`), module `Colors`. This includes
  the button's override of the default colour.
- **Error messages** (`getErrorMessage`), module `ErrorMessages`.
- **Endpoint fallback and retries** (the failure branch of `makeRequest`),
  module `RetryChain`. The state is `(apiIndex, retries)`. Each failure
  moves to the next of the 4 endpoints. At the end of a round it restarts at
  endpoint 0 with one retry fewer. With no retries left it gives the final
  error. `RunChain` is the loop of calls, driven by given attempt outcomes.
- **Thumbnail and download buttons** (`handleSuccessResponse`,
  `generateDownloadButtons`), module `DownloadButtons`. The buttons are built
  as a sequence of records, not as HTML text. The module covers:
  - the 4 YouTube quality buttons;
  - one button per download whose URL starts with `http(s)://`;
  - the sanitised file name and the button colour;
  - the "server down" error when no button is produced.

`Strings` holds the JavaScript string operations the model needs:
`startsWith`, `includes`, `split`, `slice(1)`, `\d` runs and upper-casing.
A `string` stands for a sequence of UTF-16 code units. Absent or falsy
fields (`undefined`, `""`) are the empty string. JavaScript's `null` result
is `None`.

Several library calls are inputs to the model, not part of it:

- The outcome of the WHATWG `new URL(...)` parser is a `VideoIds.Url`
  record (hostname, pathname, decoded search parameters), or `None` when the
  parser throws.
- The outcome of `JSON.parse` on the response text is an
  `ErrorMessages.ParsedBody`.
- Whether each request succeeds is a sequence of booleans.

Four behaviours of the code are easy to misread, and the model follows
the code in each:

- The code's own comment calls the restart delay "Exponential backoff"
  (main.js:256). `maxRetries` is set to `retries` on every call
  (main.js:229), so the exponent `maxRetries - retries` is always 0, and
  every restart waits 3000 ms. `OnFailure` states this.
- The `complete` callback (main.js:266-268) runs after every attempt,
  failed ones included. The submit button is therefore re-enabled after
  the first failed attempt, while later endpoints and rounds are still
  being tried. The callbacks are not modelled; see below.
- A YouTube source with an id gets its 4 quality buttons even when
  `downloads` is empty (main.js:425-438), so the "server down" check
  (main.js:478) does not fire for it (`YouTubeButtonsFirst`).
- `isYouTube` (main.js:424) searches the whole source text for
  `youtube.com` or `youtu.be`, not its host. A Facebook reel URL that
  mentions `youtube.com` in its query gets the YouTube thumbnail and
  quality buttons (`FacebookReelAsYouTube`).

## Model

| member | source | states |
|---|---|---|
| `Strings.ThirdPiece` | main.js:80 | `("/" + word + "/" + rest).split('/')` has at least three pieces, and the third is `rest` up to its next `/` |
| `VideoIds.SearchParam` | main.js:84 | `searchParams.get`: none exactly when no pair has the name; otherwise the value of the first pair with that name |
| `VideoIds.ShortsId` | main.js:78-80 | `pathname.split('/')[2]` of a `/shorts/` path is the text after `/shorts/` up to the next `/` |
| `VideoIds.ReelId` | main.js:93-94 | `pathname.split('/')[2]` of a `/reel/` path is the text after `/reel/` up to the next `/` |
| `VideoIds.FirstVideoMatch` | main.js:98-101 | the Facebook pattern search finds nothing exactly when no position matches; otherwise it finds the leftmost matching position |
| `VideoIds.FacebookVideoMatch` | main.js:98-101 | the captured id, when there is one, is a non-empty run of digits |
| `VideoIds.FacebookIsNotYouTube` | main.js:68-90 | no Facebook host is in the YouTube list, so the YouTube branches never see one |
| `VideoIds.GetVideoIds` | main.js:50-110 | an id is returned only for an `http://`/`https://` input that the parser accepted and whose host is one of the 3 YouTube or 4 Facebook hosts |
| `VideoIds.NonHttpIsNull` | main.js:52-61 | input that starts with neither `http://` nor `https://` gives null, whatever the parser would say |
| `VideoIds.ShortLink` | main.js:71-74 | for `youtu.be` the result is the pathname without its leading `/`, non-null exactly when that has 11 characters |
| `VideoIds.Shorts` | main.js:77-81 | for `youtube.com`/`www.youtube.com` a `/shorts/<rest>` path gives the segment after `/shorts/`, with no length check |
| `VideoIds.Watch` | main.js:83-85 | other `youtube.com` paths give the first `v` parameter, non-null exactly when it has 11 characters |
| `VideoIds.FacebookReel` | main.js:90-95 | on the 4 Facebook hosts a `/reel/<rest>` path gives the segment after `/reel/` |
| `VideoIds.FacebookVideo` | main.js:97-105 | other Facebook paths give the non-empty digit run after the leftmost `/video/`, `/videos/` or `/reel/` followed by a digit, and null when there is none |
| `VideoIds.OtherHost` | main.js:104-105 | any host outside the two lists gives null |
| `VideoIds.MobileYouTubeIsNull` | main.js:68-69 | `m.youtube.com` is not a recognised host and gives null |
| `VideoIds.ShortLinkExample` | main.js:71-73 | `https://youtu.be/dQw4w9WgXcQ` gives `dQw4w9WgXcQ` |
| `QueryParams.FirstParamFrom` | main.js:199-200 | finds the leftmost position where `[?&]name(=\|&\|#\|$)` matches, or none exactly when there is none |
| `QueryParams.PlusToSpace` | main.js:205 | same length, every `+` becomes a space and every other character is kept |
| `QueryParams.GetParameterByName` | main.js:196-206 | the result never contains `&` or `#` (where the value stops) nor `+` (turned into a space) |
| `QueryParams.Absent` | main.js:202 | a name that never matches gives `""` |
| `QueryParams.FirstOccurrenceDecides` | main.js:199-205 | the first match decides: with no `=value` the result is `""`, otherwise the value up to `&`/`#` with `+` as space |
| `QueryParams.WriteThenRead` | main.js:196-206 | reading back `?name=value` written after a prefix without `?`/`&` returns the value (when it has no `&`, `#`, `+`) |
| `QueryParams.FirstWithoutValueExample` | main.js:202-203 | `?itag&itag=5` gives `""` although a later occurrence has a value |
| `Colors.ColorsDistinct` | main.js:6-10 | green, blue, the default and the button colour are pairwise different |
| `Colors.FormatListsDisjoint` | main.js:7-8 | no format id is both green and blue |
| `Colors.GetBackgroundColor` | main.js:20-28 | green exactly for 17/18/22, `#3800ff` exactly for the blue list, `#9e0cf2` exactly for every other id |
| `Colors.ButtonColor` | main.js:451-457 | a button is never painted `#9e0cf2`; it gets `#3f5974` exactly when the lookup gives the default, and the lookup's colour otherwise |
| `Colors.ColorExamples` | main.js:20-28 | `18` is green, `140` is blue, an unlisted id gets the default and the button paints it `#3f5974` |
| `ErrorMessages.Detail` | main.js:274-285 | the detail always begins `Status: <status>, Error: <error>`; with an empty response text or a falsy `error` field it is exactly that; an unparsable body appends `, Unable to parse server response.`; a truthy `error` field appends `, Server Error: <error>` |
| `ErrorMessages.GetErrorMessage` | main.js:272-295 | codes 0/400/401/429/503 give one of the fixed messages; any other code gives the detail, then `, `, then text containing `HTTP <code>: `, ending in the status text or, when that is empty, the `error` string |
| `ErrorMessages.FixedIffKnown` | main.js:287-294 | the message is a fixed one exactly when the code is one of the five known codes |
| `ErrorMessages.KnownIgnoresEverythingElse` | main.js:287-292 | for a known code the message does not depend on the body, the status text or the error strings |
| `ErrorMessages.KnownMessagesDistinct` | main.js:288-292 | different known codes give different messages |
| `ErrorMessages.InitialOfKnown` | main.js:288-292 | each known code's message begins with its own letter (N, B, U, T, S) |
| `RetryChain.RequestUrlIsEndpointFor` | main.js:220-227 | for every integer index, `apiEndpoints[apiIndex] \|\| apiEndpoints[0]` is the endpoint at `apiIndex` when it is in range and endpoint 0 otherwise |
| `RetryChain.EndpointsNonEmpty` | main.js:220-225 | all 4 endpoint URLs are non-empty (truthy) for every input |
| `RetryChain.RoundsIndex` | main.js:250-258 | in the rounds from endpoint 0, attempt `k` is made with `apiIndex == k % 4` |
| `RetryChain.ChainEndpoints` | main.js:227-258 | from endpoint 0, failing call `k` of the chain requests endpoint `k % 4` |
| `RetryChain.PrefixEndpoints` | main.js:227-258 | any prefix of the chain from endpoint 0, such as the calls made until one succeeds, requests the endpoints in order 0,1,2,3,0,… |
| `RetryChain.OnFailure` | main.js:247-264 | below the last endpoint the next call is the next endpoint with the same budget after 1000 ms; at the last endpoint with budget left it is endpoint 0 with one retry fewer after 3000 ms; otherwise the chain ends; each step brings it one closer to the end, and it ends exactly when nothing is left |
| `RetryChain.ChainLength` | main.js:250-264 | a chain of failures from `(i, r)` makes exactly `Rank + 1` attempts, so it terminates |
| `RetryChain.ChainIsRounds` | main.js:250-258 | from endpoint 0 with budget `r`, the attempts are endpoints 0,1,2,3 in each round, with the budget going from `r` down to 0 |
| `RetryChain.AttemptCount` | main.js:218-264 | with budget `r` and every attempt failing there are exactly `4 * (r + 1)` attempts |
| `RetryChain.DefaultAttemptCount` | main.js:218 | the default budget of 2 gives 12 attempts before the final error |
| `RetryChain.OutOfRangeIndex` | main.js:227-258 | an index past the end requests endpoint 0, and its failure restarts at endpoint 0 at once |
| `RetryChain.RunChain` | main.js:218-264 | the calls made are a prefix of the failure chain, at most `Rank + 1` of them; they stop at the first success and are the whole chain when none succeeds; each delay is the one the failure branch scheduled |
| `DownloadButtons.ThumbnailChoice` | main.js:363-368 | a YouTube source with an id gets the `i.ytimg.com` template, and the id reads back from it; any other source gets the payload thumbnail |
| `DownloadButtons.ShortLinkId` | main.js:423-425 | a `youtu.be` source has an id exactly when its pathname has 12 characters, and the id is the pathname without its `/` |
| `DownloadButtons.FacebookReelAsYouTube` | main.js:423-425 | a Facebook `/reel/<rest>` source whose text contains `youtube.com` has the reel segment as its YouTube id and gets the `i.ytimg.com` thumbnail for it |
| `DownloadButtons.FacebookReelAsYouTubeExample` | main.js:424 | `https://www.facebook.com/reel/123?x=youtube.com` with no downloads gets id `123`, the `i.ytimg.com` thumbnail and the 4 quality buttons |
| `DownloadButtons.ReplaceNonAlnum` | main.js:460 | same length, and each character outside `[a-zA-Z0-9]` becomes `_` |
| `DownloadButtons.SafeTitle` | main.js:460 | a non-empty name of at most 50 characters from `[a-zA-Z0-9_]`: the title, or `video`, cut to 50 characters, with each non-alphanumeric character replaced by `_` |
| `DownloadButtons.SafeTitleIdempotent` | main.js:460 | sanitising an already safe title changes nothing |
| `DownloadButtons.Extension` | main.js:453 | the extension is never empty: the format id when it is non-empty, `mp4` otherwise |
| `DownloadButtons.Filename` | main.js:453-461 | the file name is the safe title, `_`, the extension and `.mp4`, in that order and with nothing else (its exact length is the sum of theirs) |
| `DownloadButtons.FilenameSeparatesFormats` | main.js:461 | for one title, two formats give the same file name exactly when their extensions agree |
| `DownloadButtons.SizeText` | main.js:454 | the size text is never empty: the size when it is non-empty, `Unknown size` otherwise |
| `DownloadButtons.FormatLabel` | main.js:465 | the button text is the extension, ` - ` and the size text, with nothing else |
| `DownloadButtons.FormatLabelSeparatesSizes` | main.js:465 | for one extension, two downloads get the same button text exactly when their size texts agree |
| `DownloadButtons.AppendQualityButtons` | main.js:430-438 | appends the 4 quality buttons in the order mp3, 360, 720, 1080 |
| `DownloadButtons.QualityButtonTexts` | main.js:436 | the quality buttons read `Download MP3`, `Download 360`, `Download 720`, `Download 1080` |
| `DownloadButtons.AppendFormatButton` | main.js:442-469 | one download adds its button exactly when its URL is non-empty and starts with `http://` or `https://`, and adds nothing otherwise |
| `DownloadButtons.AppendFormatButtons` | main.js:441-470 | appends one button per eligible download, in order |
| `DownloadButtons.FormatButtonsExact` | main.js:441-470 | one button per eligible download and no other: each button downloads an `http(s)` URL, is never the default colour and belongs to an eligible download, and every eligible download has its button |
| `DownloadButtons.GenerateDownloadButtons` | main.js:414-484 | the buttons are the quality buttons (YouTube with an id) followed by the format buttons; the "server down" error is raised exactly when there are none |
| `DownloadButtons.YouTubeButtonsFirst` | main.js:425-438 | a YouTube source with an id gets 4 buttons first, all downloading `downloads[0].url` (or the source) in `#3f5974`, so it is never reported as overloaded |
| `DownloadButtons.OverloadedIff` | main.js:477-483 | the "server down" error is shown exactly when there is no `data`, or there is no YouTube id and no eligible download |
| `DownloadButtons.EmptyResponseIsOverloaded` | main.js:477-483 | `{data: {downloads: []}}` yields no button and the "server down" error |

## Left out

- The `$.ajax` transport: timeouts, headers and the `success`/`complete` callbacks (main.js:231-269). This is network I/O. Whether an attempt succeeds is an input of `RunChain`. The re-enabling of the button is not modelled.
- `setTimeout` scheduling. Delays are recorded as numbers of milliseconds; nothing waits.
- `forceDownload` (main.js:123-162). It is a `fetch` HEAD request plus DOM anchor tricks and `window.open`.
- `debounce` (main.js:36-42) and the click listener (main.js:315-328). These are timer and event-loop behaviour.
- `updateElement`, `displayError`, the preview video HTML, the metadata fragments and every `innerHTML`/`style.display` update (main.js:181-188, 334-343, 369-406). This is DOM rendering. Only the thumbnail choice and the buttons are modelled, as records.
- `sanitizeContent`/DOMPurify (main.js:172-174). This is a library call. Button texts are kept unsanitised.
- `GetParameterByName`: does not apply `decodeURIComponent` (main.js:205), a library call. The result is the text before decoding. A malformed `%` escape makes the original throw inside the `forEach` callback (main.js:451). That aborts `generateDownloadButtons`: later downloads get no button and the "server down" check (main.js:478) never runs. The model does not capture that exception; every eligible download gets its button.
- `GetVideoIds`: `new URL` and `searchParams` decoding are library calls. Their outcome is the `parsed` argument, and nothing ties it to the raw text.
- `GetErrorMessage`: `JSON.parse` is a library call. Its outcome is the `body` field. A non-string `error` field is taken as its text.
- `ToUpperAscii` upper-cases ASCII letters only. It is applied only to the fixed quality names.
- A `null` entry in `downloads` is not modelled, and neither is a missing `downloads` array (both throw in the original). A missing `url` on `downloads[0]` is the empty string in the YouTube buttons, where the original would print `undefined`.
- The regex-escaping of `name` in `getParameterByName` (main.js:198) is a library call. The model matches `name` literally, which is what the escaping achieves.
- vite.config.js and rollup.config.js are build configuration and are not part of this model.
