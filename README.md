# TikTok downloader: a Dafny model of its request handling

The system is a small web application for saving TikTok media. An Express
server (`backend/index.js`) receives a TikTok link or a user name from the
browser, asks the public tikwm.com API for the post, and answers with
absolute media URLs. For videos it offers up to three qualities, a default
quality, and a link through its own `/proxy-video` endpoint that streams
the file back as an attachment. The browser script (`frontend/script.js`)
checks the input, sends the request, and turns the reply into download
links: video qualities, an MP3 source, story and photo grids. It also
chooses the message shown when something fails.

This project models the decision logic of both files.

- `js.dfy`, module `Js`: the JavaScript built-ins the code relies on, on
  `seq<char>`:
  - truthiness and `||` on optional strings;
  - `includes`, `replace` with a string pattern, `trim`;
  - the filename sanitiser `replace(/[^a-z0-9]/gi, '_').toLowerCase()`;
  - decimal formatting of numbers.
- `urls.dfy`, module `Urls`: the URL normaliser that the server repeats
  five times and the browser twice, and the `/proxy-video` query the server builds.
- `upstream.dfy`, module `Upstream`: the tikwm.com replies and how a call
  to tikwm.com can end.
- `qualities.dfy`, module `Qualities`: the quality table of `/download`.
  - It is an insertion-ordered object, because the browser reads
    `Object.keys`.
  - It is built imperatively (`CollectQualityOptions`) and proved equal to
    its specification `QualityTable`.
  - It also holds the default-quality rule.
- `backend.dfy`, module `Backend`: the five route handlers as functions
  from request fields and upstream outcome to a reply. The photo endpoint's
  `forEach`/`push` loop is a method (`CollectImages`) proved against
  `PhotoImages`.
- `frontend.dfy`, module `Frontend`: the script's decisions, each taken as
  a value:
  - the API base;
  - input checks;
  - file names;
  - the quality selector and its clicks;
  - the download link;
  - classification of failed requests;
  - what each tab shows.

`encodeURIComponent` and `decodeURIComponent` are parameters: `enc` and
`dec`, where `dec` returning `None` stands for a `URIError`. The network
calls are inputs: what tikwm.com answered, or the message of the error it
threw.

Two behaviours of the code worth knowing:

- **URL rewriting:** only protocol-relative (`//…`) and root-relative
  (`/…`) URLs are rewritten to absolute `https` URLs. Any other string,
  `http:` URLs included, is passed on unchanged (`Urls.NormalizeUrl`).
- **Proxy status:** the proxy passes an upstream status through only when
  it is an error status. A successful relay keeps Express's default 200
  (`Backend.HandleProxy`).

## Model

| member | source | states |
|---|---|---|
| Js.Truthy | backend/index.js:31 | the JavaScript truthiness of a string-or-absent value: exactly a present, non-empty string |
| Js.Or | backend/index.js:161 | `a \|\| b` on string-or-absent values; its contract is stated by `Js.OrChain` |
| Js.OrElse | backend/index.js:90-92 | `v \|\| 'fallback'` is the value when truthy, the fallback otherwise; a non-empty fallback gives a non-empty result |
| Js.OrChain | backend/index.js:161 | `a \|\| b \|\| c` is the first truthy of the three, or `c` when none is |
| Js.StartsWith | backend/index.js:58 | `s.startsWith(p)`: `p` is the first `\|p\|` characters of `s`; used by `Urls.NormalizeUrl` and stated by `Urls.NormalizeCases` |
| Js.Includes | frontend/script.js:61 | `s.includes(t)`, tied to the substring definition by `Js.IncludesIff` |
| Js.IncludesIff | frontend/script.js:61 | `s.includes(t)` holds exactly when `t` occurs in `s` at some position |
| Js.IncludesAfterPrefix | frontend/script.js:172 | a prefix that lacks the first character of `t` cannot change whether `t` occurs |
| Js.IndexOf | backend/index.js:191 | the first position of a character, or -1 exactly when it is absent |
| Js.RemoveFirst | backend/index.js:191 | `s.replace('@', '')`, stated by `Js.RemoveFirstSpec` |
| Js.RemoveFirstSpec | backend/index.js:191 | `replace('@', '')` removes exactly the first `@` and nothing else, or leaves a string without `@` unchanged |
| Js.Trim | backend/index.js:191 | `s.trim()`, stated by `Js.TrimSpec`, `Js.TrimKeepsOthers` and `Js.TrimIdempotent` |
| Js.LeadingTrimmable | backend/index.js:191 | `trim` cuts a leading run of whitespace that stops at the first other character |
| Js.TrailingTrimmable | backend/index.js:191 | `trim` cuts a trailing run of whitespace that stops at the last other character |
| Js.TrimSpec | backend/index.js:191 | `trim()` is a contiguous slice with only ECMAScript whitespace or line terminators cut off, and neither end is whitespace |
| Js.TrimKeepsOthers | backend/index.js:191 | `trim()` keeps every non-whitespace character with its multiplicity |
| Js.TrimIdempotent | backend/index.js:191 | trimming twice equals trimming once |
| Js.Sanitize | frontend/script.js:105 | `replace(/[^a-z0-9]/gi, '_').toLowerCase()`, one output character per UTF-16 code unit; stated by `Js.SanitizeAt` and `Js.SanitizeAppend` |
| Js.Utf16Length | frontend/script.js:105 | a string's length in UTF-16 code units, two for a character above U+FFFF |
| Js.ReplaceNonAlnum | frontend/script.js:105 | `replace(/[^a-z0-9]/gi, '_')`: each ASCII letter or digit kept, every other UTF-16 unit replaced by `_`; stated through `Js.Sanitize` by `Js.SanitizeAt` |
| Js.ToLowerCase | frontend/script.js:105 | `toLowerCase()` on the ASCII name the replacement leaves: capitals A to Z lowered, everything else kept; stated by `Js.ToLowerCaseAppend` and `Js.SanitizeAt` |
| Js.SanitizedChar | frontend/script.js:105 | every character maps to one of `[a-z0-9_]` |
| Js.SanitizedUnits | frontend/script.js:105 | one character becomes as many sanitised characters as it has UTF-16 code units: `_` for each unit of a non-alphanumeric, the lower-cased letter or digit otherwise |
| Js.SanitizeCons | frontend/script.js:105 | the name of a title is its first character's units followed by the name of the rest |
| Js.SanitizeAppend | frontend/script.js:105 | the name of two joined strings is the two names joined |
| Js.SanitizeAt | frontend/script.js:105 | the result's length is the title's UTF-16 length and every character is one of `[a-z0-9_]`; for a title without surrogate pairs each character maps on its own |
| Js.SanitizeIdempotent | frontend/script.js:105 | sanitising a sanitised name changes nothing |
| Js.NatToString | frontend/script.js:98 | a status number is written as a non-empty string of decimal digits |
| Js.NatToStringRoundTrip | frontend/script.js:377 | the decimal text of a number reads back as that number |
| Urls.NormalizeUrl | backend/index.js:57-59 | the input is a suffix of the result; the result never starts with `/`; `/`-prefixed input becomes `https://`; other input is untouched |
| Urls.NormalizeCases | backend/index.js:57-59 | `//x` gives `https://x`, `/x` gives `https://tikwm.com/x`, anything else is returned as is |
| Urls.NormalizeIdempotent | frontend/script.js:371-372 | normalising a normalised URL changes nothing |
| Urls.NormalizeAll | backend/index.js:233-238 | the photo list with each URL normalised; stated by `Urls.NormalizeAllAt` |
| Urls.NormalizeAllLength | backend/index.js:233-238 | mapping the normaliser over the photo list keeps its length |
| Urls.NormalizeAllIndex | backend/index.js:233-238 | photo `k` of the mapped list is the normalised photo `k` |
| Urls.NormalizeAllSnoc | backend/index.js:233-238 | mapping a list with one more photo appends that photo, normalised |
| Urls.NormalizeAllAt | backend/index.js:233-238 | mapping the normaliser keeps length and order and normalises each element |
| Urls.NormalizeAllIdempotent | frontend/script.js:369-372 | the browser's second normalisation of the server's photo list changes nothing |
| Urls.ProxyVideoPath | backend/index.js:84 | `/proxy-video?videoUrl=<enc(url)>&filename=<enc(name)>`; stated by `Urls.ProxyVideoPathFields` |
| Urls.ProxyVideoPathFields | backend/index.js:84 | when the encoded URL has no `&`, the query splits at its first `&` into the encoded video URL and `filename=` with the encoded name |
| Upstream.Succeeded | backend/index.js:51 | `data && data.code === 0 && data.data`, the success test shared by lines 51, 160, 196 and 228: a parsed, non-null reply with code 0 and a payload; the success side of `Backend.HandleDownload`, `Backend.HandleMp3`, `Backend.HandleStory` and `Backend.HandlePhoto` is stated with it |
| Upstream.Msg | backend/index.js:96-100 | `data?.msg`: the reply's message, absent when the call threw or the reply is `null`; the `details` of `Backend.DownloadFailures` are stated with it |
| Qualities.Assign | backend/index.js:60 | `qualityOptions.<key> = option` on an insertion-ordered object; stated by `Qualities.AssignNewKey` |
| Qualities.Lookup | backend/index.js:81 | `qualityOptions[key]`, absent for a missing key (also frontend/script.js:158); stated by `Qualities.LookupAt` |
| Qualities.Keys | backend/index.js:80 | `Object.keys(t)`: the keys in insertion order (also frontend/script.js:109); stated for the server's table by `Qualities.QualityTableKeyList` |
| Qualities.OptionFor | backend/index.js:57-60 | the option of one field: normalised URL, the key's label and tier |
| Qualities.QualityTable | backend/index.js:53-75 | the table the three conditional assignments build; stated by `Qualities.QualityTableKeys`, `Qualities.QualityTableBuiltFrom` and `Qualities.QualityTableOrdered` |
| Qualities.DefaultQuality | backend/index.js:78 | `nwmplay` if truthy, else `hdplay` if truthy, else `play`; stated by `Qualities.DefaultQualityIsFirstPresent` |
| Qualities.AssignNewKey | backend/index.js:60 | assigning a key the object lacks appends it at the end of the key order |
| Qualities.CollectQualityOptions | backend/index.js:53-75 | the three conditional assignments build exactly `QualityTable` |
| Qualities.QualityTableKeyList | backend/index.js:56-75 | the key list holds, in order, those of `nwmplay`, `hdplay`, `play` whose field is truthy |
| Qualities.QualityTableKeys | backend/index.js:56-75 | a key is in the table exactly when its upstream field is truthy |
| Qualities.QualityTableBuiltFrom | backend/index.js:56-75 | every option holds the normalised URL of its own field with its key's label and tier |
| Qualities.QualityTableOrdered | backend/index.js:53-75 | keys stand in strict priority order `nwmplay`, `hdplay`, `play`, so none is repeated |
| Qualities.QualityTableTiers | backend/index.js:60-74 | only `hdplay` carries tier `hd`; the other two carry `standart` |
| Qualities.DefaultQualityIsFirstPresent | backend/index.js:78 | the default key names a truthy field whenever one exists, and no truthy field has higher priority |
| Qualities.DefaultInTable | backend/index.js:78-81 | the table is non-empty exactly when some field is truthy; then the default is its first key and the lookup on line 81 finds an option |
| Qualities.LookupAt | frontend/script.js:158 | in a table whose keys stand in strictly increasing priority, as every table the server builds does, looking up an entry's key finds that entry's option |
| Qualities.QualityTableSize | backend/index.js:80 | the number of options is the number of truthy media fields |
| Backend.DownloadFilename | backend/index.js:82 | `<enc(title \|\| 'tiktok-video')>.mp4`, the file name in the proxy link |
| Backend.HandleDownload | backend/index.js:29-106 | a failure is 400 or 500; 400 exactly for a missing URL; success exactly for a URL, an upstream success and at least one option; `downloadUrl` is the first option's URL |
| Backend.DownloadFailures | backend/index.js:31-32 | each failure branch with its error text and details (also lines 94-104) |
| Backend.DownloadSuccess | backend/index.js:77-93 | the success body: key set, order and contents of the options, default key, its URL, the proxy path, and the title, author and cover defaults |
| Backend.DownloadExample | backend/index.js:56-93 | a protocol-relative `nwmplay` gives one `https` option which is also the default |
| Backend.HandleProxy | backend/index.js:113-140 | the reply `400 Video URL is required.` exactly for a missing `videoUrl`; the file is relayed exactly when the fetch answered 2xx, the file name decodes, and the disposition passes Node.js's header-value check |
| Backend.IsOkStatus | backend/index.js:123 | `response.ok`: a status from 200 to 299; the relay condition of `Backend.HandleProxy` and `Backend.ProxyDecisions` |
| Backend.AttachmentDisposition | backend/index.js:133 | the header value `attachment; filename="<name>"`; stated by `Backend.DispositionHeaderOk` and `Backend.ProxyDefaultFilename` |
| Backend.HeaderValueOk | backend/index.js:133 | the characters `setHeader` accepts in a value: tab, printable ASCII, U+0080 to U+00FF |
| Backend.DispositionHeaderOk | backend/index.js:133 | the disposition passes the header check exactly when the file name does |
| Backend.ProxyDecisions | backend/index.js:116-138 | error statuses pass through; a thrown fetch, an undecodable name, or a decoded name a header cannot carry gives 500; relaying happens exactly otherwise; the content type is copied only when present; the disposition carries the decoded name or the default |
| Backend.ProxyRefusesWideName | backend/index.js:133-138 | a file name that decodes to `ş.mp4` makes `setHeader` throw, so the proxy answers 500 |
| Backend.ProxyDefaultFilename | backend/index.js:133 | without a file name the attachment is called `tiktok-video.mp4` |
| Backend.Mp3Source | backend/index.js:161 | `nwmplay \|\| hdplay \|\| play`; stated by `Backend.Mp3MatchesDefaultQuality` and `Backend.Mp3Failures` |
| Backend.HandleMp3 | backend/index.js:143-180 | 400 exactly for a missing URL; success exactly when the upstream succeeded and `nwmplay \|\| hdplay \|\| play` is not `null` or missing (a truthy field, or `play` present, even empty); the URL is that value, normalised |
| Backend.Mp3Failures | backend/index.js:145-178 | each failure with its text; the TypeError case happens exactly when no field is truthy and `play` is `null` or missing, and its details name `null` or `undefined` accordingly |
| Backend.Mp3MatchesDefaultQuality | backend/index.js:161 | whenever a field is truthy, the MP3 URL is the `downloadUrl` that `/download` gives |
| Backend.CleanUsername | backend/index.js:191 | `username.replace('@', '').trim()` |
| Backend.CleanUsernameSpec | backend/index.js:191 | the cleaned name removes the first `@` first and trims the result afterwards, holds one `@` less, and cleaning it again changes nothing when no `@` is left |
| Backend.HandleStory | backend/index.js:183-208 | 400 exactly for a missing name; success exactly for an upstream success, which passes the stories on unchanged with the cleaned name |
| Backend.StoryFailures | backend/index.js:185-206 | each failure with its text; only a thrown call carries details |
| Backend.StoryCheckPrecedesCleaning | backend/index.js:185-191 | the name `@` passes the check and is cleaned to the empty name |
| Backend.PhotoImages | backend/index.js:229-239 | the upstream `images` array with each URL normalised, empty when the field is missing or not an array; stated by `Backend.PhotoImagesSpec` |
| Backend.CollectImages | backend/index.js:229-239 | the `forEach`/`push` loop builds exactly `PhotoImages` |
| Backend.HandlePhoto | backend/index.js:211-254 | 400 exactly for a missing URL; success exactly for an upstream success |
| Backend.PhotoFailures | backend/index.js:213-252 | each failure with its text; only a thrown call carries details |
| Backend.PhotoImagesSpec | backend/index.js:228-246 | the images keep the upstream array's length and order, normalised; a missing or non-array field gives an empty list with success; no image stays `/`-relative |
| Frontend.ApiBaseUrl | frontend/script.js:2-4 | the local server exactly for `localhost` and `127.0.0.1`; the base always starts with `http` |
| Frontend.CheckTikTokUrl | frontend/script.js:55-64 | empty input asks for a URL; input without `tiktok.com` asks for a valid one; any other input is sent |
| Frontend.AcceptedIffMentionsTikTok | frontend/script.js:61 | input is sent exactly when `tiktok.com` occurs in it |
| Frontend.CheckUsername | frontend/script.js:278-281 | only the empty name is refused |
| Frontend.SentInputPassesServerCheck | frontend/script.js:55-64 | input the script sends never gets the server's 400 on the video, MP3, photo or story endpoint |
| Frontend.VideoFilename | frontend/script.js:105 | the sanitised title, or `tiktok-video`, plus `.mp4` |
| Frontend.Mp3Filename | frontend/script.js:245 | the same sanitised title without the suffix |
| Frontend.VideoFilenameShape | frontend/script.js:105 | the video file name is `[a-z0-9_]` characters, one per UTF-16 code unit of the title (or `tiktok-video`), then `.mp4`; a title without surrogate pairs maps character by character |
| Frontend.Mp3FilenameShape | frontend/script.js:245 | the MP3 tab's name is the same sanitised title, as long as the title in UTF-16 code units, and plus `.mp4` it is the video name |
| Frontend.VideoFilenameEmoji | frontend/script.js:105 | an emoji counts as two code units: the title `a🎵` gives `a__.mp4` |
| Frontend.ShowQualitySelector | frontend/script.js:109 | whether the selector is rendered: more than one key (also line 140); stated by `Frontend.SelectorForDownload` |
| Frontend.InitialSelection | frontend/script.js:125 | `defaultQuality \|\| Object.keys(qualities)[0]`; stated by `Frontend.SelectorForDownload` |
| Frontend.FirstKeyName | frontend/script.js:125 | `Object.keys(data.qualities \|\| {})[0]`: the first key's name, absent for a missing or empty table; stated by `Frontend.SelectorForDownload` |
| Frontend.MarkedDefault | frontend/script.js:113 | which options are marked as the default; stated by `Frontend.SelectorForDownload` |
| Frontend.KeyNameInjective | frontend/script.js:113 | two keys have the same name only when they are the same key |
| Frontend.SelectorForDownload | frontend/script.js:109-125 | the selector is shown exactly when more than one field was truthy; the first selection is the default, which is also the first key; only the first option is marked |
| Frontend.SelectedProxyUrl | frontend/script.js:152 | the link built after a click; stated by `Frontend.SelectedProxyUrlFields` |
| Frontend.SelectedProxyUrlFields | frontend/script.js:152 | a clicked option's link starts with the API base's `/proxy-video?videoUrl=` and its `videoUrl` value is that option's encoded URL |
| Frontend.SelectedProxyUrlPrefix | frontend/script.js:152 | every link built after a click starts with the API base's `/proxy-video?videoUrl=` |
| Frontend.ClickQuality | frontend/script.js:142-159 | the selection, link and link text after a click on option `i`; stated by `Frontend.ClickQualitySelectsOption` |
| Frontend.ClickQualitySelectsOption | frontend/script.js:142-159 | a click selects that option's key; the link carries its field's normalised URL and the sanitised title; the text is its label plus ` İndir` |
| Frontend.InitialHrefAsWritten | frontend/script.js:126 | the first link as the script writes it: `proxyDownloadUrl` alone |
| Frontend.InitialHref | frontend/script.js:126 | the corrected first link, `API_BASE_URL` in front of `proxyDownloadUrl` (see "## Findings"); stated by `Frontend.InitialHrefMatchesSelection`, and the view `Frontend.VideoViewOf` uses it |
| Frontend.InitialHrefMissesApiBase | frontend/script.js:126-132 | as written, the first link starts with `/proxy-video?videoUrl=` and never with the API base |
| Frontend.InitialHrefMatchesSelection | frontend/script.js:126-152 | corrected, the first link is the link a click on the default option builds, with the server's file name, under the API base |
| Frontend.ClassifyFetchError | frontend/script.js:170-180 | `AbortError` is the timeout; otherwise a message naming `Failed to fetch` or `NetworkError` is the unreachable notice; anything else is `Hata: ` plus the message |
| Frontend.HttpErrorMessage | frontend/script.js:98 | `HTTP <status>: <statusText>`, the message thrown for a non-ok reply |
| Frontend.ServerErrorShownAsHttpStatus | frontend/script.js:97-99 | a non-ok reply is shown as `Hata: HTTP <status>: <text>` unless the status text names a network failure |
| Frontend.HttpMessageNamesNoNetworkFailure | frontend/script.js:98 | the thrown HTTP message names `Failed to fetch` or `NetworkError` exactly when the status text does |
| Frontend.VideoViewOf | frontend/script.js:97-165 | what the video tab shows, with the corrected first link (see Findings); stated by `Frontend.VideoViewForSuccess` |
| Frontend.VideoViewForSuccess | frontend/script.js:103-137 | a successful download always shows the link, with the default quality selected and the selector exactly when there is more than one quality; the link is the corrected one, the API base in front of the script's `proxyDownloadUrl` (see Findings) |
| Frontend.StoryUrl | frontend/script.js:302-304 | `url \|\| video_url \|\| cover`, normalised when truthy; stated by `Frontend.StoryUrlChoice` |
| Frontend.StoryUrlChoice | frontend/script.js:302-304 | the story URL is the first truthy of `url`, `video_url`, `cover`, normalised; with none truthy it is `cover` unnormalised |
| Frontend.StoryViewOf | frontend/script.js:298-325 | what the story tab shows; stated by `Frontend.StoryViewSpec` |
| Frontend.StoryViewSpec | frontend/script.js:298-322 | the grid has one entry per story in order; an empty list shows the no-story message |
| Frontend.PhotoViewOf | frontend/script.js:367-391 | what the photo tab shows; stated by `Frontend.PhotoViewSpec` |
| Frontend.PhotoName | frontend/script.js:377 | `<title \|\| 'photo'>_<index + 1>.jpg`; stated by `Frontend.NumberedNameInjective` |
| Frontend.PhotoViewSpec | frontend/script.js:367-391 | an ok reply with no images shows `Hata: Fotoğraf bulunamadı.`; otherwise the grid shows the server's list exactly |
| Frontend.NumberedNameInjective | frontend/script.js:377 | two download names with the same title and different numbers differ |
| Frontend.PhotoNamesDistinct | frontend/script.js:377 | each photo gets its own download name |
| Frontend.Mp3ViewOf | frontend/script.js:236-265 | what the MP3 tab shows; stated by `Frontend.Mp3ViewSpec` |
| Frontend.Mp3ViewSpec | frontend/script.js:243-261 | a truthy URL is offered under the video tab's name for the title; an empty one is shown as an error |

## Left out

- Networking, Express routing and `res` plumbing are not modelled: the request bodies, the tikwm.com calls, the streamed `response.body.pipe(res)`, timeouts and `AbortController`. Each is an input or an output value.
- The exact behaviour of `encodeURIComponent` and `decodeURIComponent` is not modelled: both are parameters, and no claim is made about encoding round trips.
- JSON fields of types other than string (numbers, objects, a non-string element of `images`) are not modelled: a field is a string or absent.
- Calls to `startsWith` on such values are left out for the same reason. The TypeError of `/download-mp3` when no media field is truthy and `play` is `null` or missing is modelled, and so is the one `setHeader` raises in `/proxy-video` for a file name a header cannot carry.
- `/health`, `checkBackendConnection` and the page-load banner are not modelled: they only report whether the server answers.
- Logging, the `ffmpeg` setup, tab switching, button states and the Enter-key handlers are not modelled.
- The HTML the script renders is not modelled: alt texts, the photo count, the title paragraph, and the `details` line of the video tab's error. A view value names what is shown instead.
- The browser's `catch` branches for a failed request or an unreadable JSON body on the MP3, story and photo tabs are not modelled: each shows one fixed message.
- The video tab's branch for a reply without `proxyDownloadUrl` is modelled only with the server's own replies, which always carry it.
- `Js.Trim`, `Js.ToLowerCase`: strings are UTF-16 in JavaScript and Unicode scalars here. Every character `trim` can cut is a single code unit, so pairs change nothing there, and `toLowerCase` is modelled for the ASCII capitals it meets after sanitising.
- `Js.Sanitize`: a lone surrogate code unit cannot be a `char`, so a title holding one is not modelled; surrogate pairs are counted as two units.
- `Frontend.ClickQuality`: the lookup of the clicked key's label is total here. In the script it reads `undefined.label` for an unknown key, which cannot come from a table the server built.

## Findings

| source | as written | input that shows it | evidently intended | confidence | as-written member | corrected member |
|---|---|---|---|---|---|---|
| frontend/script.js:126-132 | the first download link uses the server's `proxyDownloadUrl`, an origin-relative path, so it resolves against the page's origin, which is not the API server | any successful `/download` reply, e.g. one `nwmplay` URL, on a page served from any host: the link is `/proxy-video?videoUrl=…` | prefix `API_BASE_URL`, as line 152 does after a quality click (with a single quality no click is possible, so the link stays broken) | high, not executed | Frontend.InitialHrefMissesApiBase | Frontend.InitialHrefMatchesSelection |

The video tab's view (`Frontend.VideoViewOf`, `Frontend.VideoViewForSuccess`) is built from the corrected link `Frontend.InitialHref`. The script as written shows `Frontend.InitialHrefAsWritten`.
