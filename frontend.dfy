/**
 * The decisions of the browser script: which input it refuses before any
 * request, the file names it offers, the quality selector, the proxy link
 * it builds, how it picks and normalises story and photo URLs, and which
 * message it shows for a failed request. The DOM, the HTML it renders and
 * the health check are not modelled; what a tab shows is a value.
 */
module Frontend {
  import opened Js
  import opened Urls
  import opened Upstream
  import opened Qualities
  import opened Backend

  // -------------------------------------------------------------- API base

  const LocalApiBase: string := "http://localhost:3000"
  // `https://tiktok-downloader-backend-yk1f.onrender.com`, written as two
  // literals so that the verifier sees the scheme at its head
  const HostedApiBase: string := "https://" + "tiktok-downloader-backend-yk1f.onrender.com"

  /** `API_BASE_URL`: the local server when the page is served from localhost, else the hosted one. */
  function ApiBaseUrl(hostname: string): (r: string)
    ensures r == LocalApiBase <==> hostname == "localhost" || hostname == "127.0.0.1"
    ensures StartsWith(r, "http")
  {
    if hostname == "localhost" || hostname == "127.0.0.1" then LocalApiBase
    else HostedApiBase
  }

  // ------------------------------------------------------- input validation

  /** The result of the checks a click runs before any request. */
  datatype InputCheck = Accepted | Rejected(message: string)

  const EnterUrlMessage: string := "Lütfen bir TikTok URL'si girin."
  const InvalidUrlMessage: string := "Geçerli bir TikTok URL'si girin."
  const EnterUsernameMessage: string := "Lütfen bir kullanıcı adı girin."

  /**
   * The check of the video, MP3 and photo tabs: an empty field asks for a
   * URL; a value without `tiktok.com` in it asks for a valid one; anything
   * else is sent.
   */
  function CheckTikTokUrl(input: string): (r: InputCheck)
    ensures r == Rejected(EnterUrlMessage) <==> input == ""
    ensures r == Rejected(InvalidUrlMessage) <==> input != "" && !Includes(input, "tiktok.com")
    ensures r == Accepted <==> input != "" && Includes(input, "tiktok.com")
  {
    if input == "" then Rejected(EnterUrlMessage)
    else if !Includes(input, "tiktok.com") then Rejected(InvalidUrlMessage)
    else Accepted
  }

  /** A value is sent exactly when `tiktok.com` occurs somewhere in it (which rules out the empty field). */
  lemma AcceptedIffMentionsTikTok(input: string)
    ensures CheckTikTokUrl(input) == Accepted <==> exists i :: OccursAt(input, "tiktok.com", i)
  {
    IncludesIff(input, "tiktok.com");
  }

  /** The check of the story tab: only an empty field is refused. */
  function CheckUsername(input: string): (r: InputCheck)
    ensures r == Accepted <==> input != ""
    ensures r.Rejected? ==> r.message == EnterUsernameMessage
  {
    if input == "" then Rejected(EnterUsernameMessage) else Accepted
  }

  /**
   * A value the script sends is never refused by the server's own
   * required-field check: the video, MP3 and photo endpoints never answer
   * 400 to it, nor the story endpoint to a sent name.
   */
  lemma SentInputPassesServerCheck(input: string, video: Fetched<VideoData>, stories: Fetched<seq<Story>>, enc: string -> string)
    ensures CheckTikTokUrl(input) == Accepted ==>
              && StatusOf(HandleDownload(Some(input), video, enc)) != 400
              && StatusOf(HandleMp3(Some(input), video)) != 400
              && StatusOf(HandlePhoto(Some(input), video)) != 400
    ensures CheckUsername(input) == Accepted ==> StatusOf(HandleStory(Some(input), stories)) != 400
  {
  }

  // ------------------------------------------------------------- file names

  /** `(title || 'tiktok-video').replace(/[^a-z0-9]/gi, '_').toLowerCase() + '.mp4'`. */
  function VideoFilename(title: Option<string>): string {
    Sanitize(OrElse(title, "tiktok-video")) + ".mp4"
  }

  /** The same name without the suffix, as the MP3 tab computes it. */
  function Mp3Filename(title: Option<string>): string {
    Sanitize(OrElse(title, "tiktok-video"))
  }

  /**
   * The video file name is the title mapped into `[a-z0-9_]` followed by
   * `.mp4`: four characters longer than the title's UTF-16 length (or than
   * `tiktok-video` when the title is absent or empty), each character of a
   * title without surrogate pairs mapped on its own.
   */
  lemma VideoFilenameShape(title: Option<string>)
    ensures var t := OrElse(title, "tiktok-video");
            var f := VideoFilename(title);
            && |f| == Utf16Length(t) + 4
            && f[|f| - 4..] == ".mp4"
            && (forall k :: 0 <= k < |f| - 4 ==> IsFilenameChar(f[k]))
            && (InBmp(t) ==> |f| == |t| + 4 && forall k :: 0 <= k < |t| ==> f[k] == SanitizedChar(t[k]))
  {
    var t := OrElse(title, "tiktok-video");
    var m := Sanitize(t);
    SanitizeAt(t);
    var f := VideoFilename(title);
    assert f == m + ".mp4";
    assert f[|f| - 4..] == ".mp4";
    forall k | 0 <= k < |f| - 4 ensures IsFilenameChar(f[k]) {
      assert f[k] == m[k];
    }
    if InBmp(t) {
      forall k | 0 <= k < |t| ensures f[k] == SanitizedChar(t[k]) {
        assert f[k] == m[k];
      }
    }
  }

  /**
   * The MP3 tab's name is the same sanitised title, as long as the title in
   * UTF-16 code units, with no suffix.
   */
  lemma Mp3FilenameShape(title: Option<string>)
    ensures var t := OrElse(title, "tiktok-video");
            var f := Mp3Filename(title);
            && |f| == Utf16Length(t)
            && (forall k :: 0 <= k < |f| ==> IsFilenameChar(f[k]))
            && (InBmp(t) ==> |f| == |t| && forall k :: 0 <= k < |t| ==> f[k] == SanitizedChar(t[k]))
            && VideoFilename(title) == f + ".mp4"
  {
    SanitizeAt(OrElse(title, "tiktok-video"));
  }

  /** An emoji, two UTF-16 code units, becomes two underscores: the title `a🎵` is saved as `a__.mp4`. */
  lemma VideoFilenameEmoji()
    ensures VideoFilename(Some("a\U{1F3B5}")) == "a__.mp4"
  {
    var t := "a\U{1F3B5}";
    SanitizeCons(t);
    SanitizeCons(t[1..]);
    assert t[1..][1..] == [];
    assert Sanitize([]) == [];
  }

  // --------------------------------------------------------- quality choice

  /** `data.qualities && Object.keys(data.qualities).length > 1`: whether the selector is rendered and wired. */
  predicate ShowQualitySelector(qualities: Option<seq<Entry>>) {
    qualities.Some? && |Keys(qualities.value)| > 1
  }

  /** `Object.keys(data.qualities || {})[0]`, `None` for `undefined`. */
  function FirstKeyName(qualities: Option<seq<Entry>>): Option<string> {
    if qualities.Some? && |qualities.value| > 0 then Some(KeyName(qualities.value[0].key)) else None
  }

  /** `data.defaultQuality || Object.keys(data.qualities || {})[0]`: the quality selected at first. */
  function InitialSelection(defaultQuality: Option<string>, qualities: Option<seq<Entry>>): Option<string> {
    Or(defaultQuality, FirstKeyName(qualities))
  }

  /** `key === data.defaultQuality` for every rendered option, in order. */
  function MarkedDefault(qualities: seq<Entry>, defaultQuality: Option<string>): seq<bool> {
    seq(|qualities|, i requires 0 <= i < |qualities| => Some(KeyName(qualities[i].key)) == defaultQuality)
  }

  /** Distinct keys have distinct names. */
  lemma KeyNameInjective(a: QualityKey, b: QualityKey)
    ensures KeyName(a) == KeyName(b) <==> a == b
  {
  }

  /**
   * On a successful download reply the selector appears exactly when two or
   * more upstream fields were truthy; the quality selected at first is the
   * server's default, which is also the first key (so the fallback agrees
   * with it), and the first option is the only one marked as default.
   */
  lemma SelectorForDownload(url: Option<string>, upstream: Fetched<VideoData>, enc: string -> string)
    requires HandleDownload(url, upstream, enc).Ok?
    ensures var b := HandleDownload(url, upstream, enc).body;
            && (ShowQualitySelector(Some(b.qualities)) <==> PresentCount(Payload(upstream)) > 1)
            && InitialSelection(Some(b.defaultQuality), Some(b.qualities)) == Some(b.defaultQuality)
            && FirstKeyName(Some(b.qualities)) == Some(b.defaultQuality)
            && (forall i :: 0 <= i < |b.qualities| ==> (MarkedDefault(b.qualities, Some(b.defaultQuality))[i] <==> i == 0))
  {
    var b := HandleDownload(url, upstream, enc).body;
    var d := Payload(upstream);
    QualityTableSize(d);
    DefaultInTable(d);
    QualityTableOrdered(d);
    forall i | 0 <= i < |b.qualities|
      ensures MarkedDefault(b.qualities, Some(b.defaultQuality))[i] <==> i == 0
    {
      KeyNameInjective(b.qualities[i].key, b.qualities[0].key);
      assert Keys(b.qualities)[i] == b.qualities[i].key;
      assert Keys(b.qualities)[0] == b.qualities[0].key;
    }
  }

  // ------------------------------------------------------------- proxy link

  /** `${API_BASE_URL}/proxy-video?videoUrl=${enc(url)}&filename=${enc(filename)}`: the link after a quality is clicked. */
  function SelectedProxyUrl(apiBase: string, enc: string -> string, videoUrl: string, filename: string): string {
    apiBase + ProxyVideoPath(enc, videoUrl, filename)
  }

  /**
   * A clicked option's link points at the proxy endpoint of the API base,
   * and its `videoUrl` query value is the encoded URL of exactly that option.
   */
  lemma SelectedProxyUrlFields(apiBase: string, enc: string -> string, option: QualityOption, filename: string)
    requires '&' !in enc(option.url)
    ensures var u := SelectedProxyUrl(apiBase, enc, option.url, filename);
            var q := u[|apiBase| + |"/proxy-video?videoUrl="|..];
            && StartsWith(u, apiBase + "/proxy-video?videoUrl=")
            && IndexOf(q, '&') == |enc(option.url)|
            && q[..IndexOf(q, '&')] == enc(option.url)
            && q[IndexOf(q, '&') + 1..] == "filename=" + enc(filename)
  {
    var p := ProxyVideoPath(enc, option.url, filename);
    ProxyVideoPathFields(enc, option.url, filename);
    var u := apiBase + p;
    assert u[|apiBase|..] == p;
    assert u[|apiBase| + |"/proxy-video?videoUrl="|..] == p[|"/proxy-video?videoUrl="|..];
    assert u[..|apiBase| + |"/proxy-video?videoUrl="|] == apiBase + p[..|"/proxy-video?videoUrl="|];
  }

  /** What a click on a quality option sets: the selected key, the link's `href` and its text. */
  datatype Selection = Selection(quality: string, href: string, linkText: string)

  /**
   * A click on the option rendered at position `i`: its key becomes the
   * selection, the link is rebuilt from the option's URL and the page's
   * file name, and its text is the label of the option stored under that
   * key followed by ` İndir`.
   */
  function ClickQuality(apiBase: string, enc: string -> string, qualities: seq<Entry>, filename: string, i: nat): Selection
    requires i < |qualities|
  {
    var e := qualities[i];
    var labelText := match Lookup(qualities, e.key) case Some(o) => o.labelText case None => "";
    Selection(KeyName(e.key), SelectedProxyUrl(apiBase, enc, e.option.url, filename), labelText + " İndir")
  }

  /**
   * On a successful download reply a click on any option selects exactly
   * that option: the link carries the normalised upstream URL of the
   * clicked key and the sanitised title, and the text names its label.
   */
  lemma ClickQualitySelectsOption(apiBase: string, url: Option<string>, upstream: Fetched<VideoData>, enc: string -> string, i: nat)
    requires HandleDownload(url, upstream, enc).Ok?
    requires i < |HandleDownload(url, upstream, enc).body.qualities|
    ensures var b := HandleDownload(url, upstream, enc).body;
            var k := b.qualities[i].key;
            var c := ClickQuality(apiBase, enc, b.qualities, VideoFilename(Some(b.title)), i);
            && Truthy(Field(Payload(upstream), k))
            && c.quality == KeyName(k)
            && c.href == apiBase + ProxyVideoPath(enc, NormalizeUrl(Field(Payload(upstream), k).value), VideoFilename(Some(b.title)))
            && c.linkText == Label(k) + " İndir"
  {
    var b := HandleDownload(url, upstream, enc).body;
    DownloadSuccess(url, upstream, enc);
    assert BuiltFrom(Payload(upstream), b.qualities[i]);
    forall x, y | 0 <= x < y < |b.qualities|
      ensures Rank(b.qualities[x].key) < Rank(b.qualities[y].key)
    {
      assert Keys(b.qualities)[x] == b.qualities[x].key;
      assert Keys(b.qualities)[y] == b.qualities[y].key;
    }
    LookupAt(b.qualities, i);
  }

  /**
   * The download link's first `href` AS WRITTEN: the server's
   * `proxyDownloadUrl` unchanged, a path without the API base.
   */
  function InitialHrefAsWritten(b: DownloadBody): string {
    b.proxyDownloadUrl
  }

  /**
   * The page is never served by the API server, yet the first link is
   * origin-relative: for every page host it starts with `/proxy-video`, not
   * with the API base, so it resolves against the page's own origin.
   */
  lemma InitialHrefMissesApiBase(url: Option<string>, upstream: Fetched<VideoData>, enc: string -> string, hostname: string)
    requires HandleDownload(url, upstream, enc).Ok?
    ensures var h := InitialHrefAsWritten(HandleDownload(url, upstream, enc).body);
            StartsWith(h, "/proxy-video?videoUrl=") && !StartsWith(h, ApiBaseUrl(hostname))
  {
    var b := HandleDownload(url, upstream, enc).body;
    DownloadSuccess(url, upstream, enc);
    ProxyVideoPathStart(enc, b.downloadUrl, DownloadFilename(enc, Payload(upstream).title));
    var h := InitialHrefAsWritten(b);
    var base := ApiBaseUrl(hostname);
    assert h[0] == '/';
    assert base[0] == "http"[0];
  }

  /** The download link's first `href`, corrected: the API base in front of the server's proxy path, as line 152 does for a click. */
  function InitialHref(apiBase: string, b: DownloadBody): string {
    apiBase + b.proxyDownloadUrl
  }

  /**
   * Corrected, the first link is the link a click on the default option
   * builds, only with the server's file name in place of the sanitised one,
   * and it points at the API base for every page host.
   */
  lemma InitialHrefMatchesSelection(url: Option<string>, upstream: Fetched<VideoData>, enc: string -> string, hostname: string)
    requires HandleDownload(url, upstream, enc).Ok?
    ensures var b := HandleDownload(url, upstream, enc).body;
            var base := ApiBaseUrl(hostname);
            && InitialHref(base, b) == SelectedProxyUrl(base, enc, b.qualities[0].option.url, DownloadFilename(enc, Payload(upstream).title))
            && StartsWith(InitialHref(base, b), base + "/proxy-video?videoUrl=")
  {
    var b := HandleDownload(url, upstream, enc).body;
    DownloadSuccess(url, upstream, enc);
    SelectedProxyUrlPrefix(ApiBaseUrl(hostname), enc, b.downloadUrl, DownloadFilename(enc, Payload(upstream).title));
  }

  /** Every link built after a click points at the proxy endpoint under the API base. */
  lemma SelectedProxyUrlPrefix(apiBase: string, enc: string -> string, videoUrl: string, filename: string)
    ensures StartsWith(SelectedProxyUrl(apiBase, enc, videoUrl, filename), apiBase + "/proxy-video?videoUrl=")
  {
    var pre := "/proxy-video?videoUrl=";
    var rest := enc(videoUrl) + "&filename=" + enc(filename);
    assert ProxyVideoPath(enc, videoUrl, filename) == pre + rest;
    assert SelectedProxyUrl(apiBase, enc, videoUrl, filename) == (apiBase + pre) + rest;
  }

  // ------------------------------------------------------ failed requests

  /** A rejected `fetch` or a thrown `Error`: its `name` and `message`. */
  datatype FetchError = FetchError(name: string, message: string)

  /** What the video tab shows for a failed request. */
  datatype ErrorNotice = TimedOut | BackendUnreachable | Other(text: string)

  /**
   * An `AbortError` is the 60-second timeout; a message naming
   * `Failed to fetch` or `NetworkError` means the server cannot be reached;
   * anything else is shown as `Hata: ` and the message.
   */
  function ClassifyFetchError(e: FetchError): (r: ErrorNotice)
    ensures r == TimedOut <==> e.name == "AbortError"
    ensures r == BackendUnreachable <==>
              e.name != "AbortError" && (Includes(e.message, "Failed to fetch") || Includes(e.message, "NetworkError"))
    ensures r.Other? ==> r.text == "Hata: " + e.message
  {
    if e.name == "AbortError" then TimedOut
    else if Includes(e.message, "Failed to fetch") || Includes(e.message, "NetworkError") then BackendUnreachable
    else Other("Hata: " + e.message)
  }

  /** `HTTP ${response.status}: ${response.statusText}`, the error thrown for a non-ok reply. */
  function HttpErrorMessage(status: nat, statusText: string): string {
    HttpPrefix(status) + statusText
  }

  /**
   * Every error status of the server reaches the user as `Hata: HTTP <status>: <text>`
   * (never as the timeout or the unreachable notice, unless the status text
   * itself names a network failure): the error body the server sent is not shown.
   */
  lemma ServerErrorShownAsHttpStatus(status: nat, statusText: string)
    requires !Includes(statusText, "Failed to fetch") && !Includes(statusText, "NetworkError")
    ensures ClassifyFetchError(FetchError("Error", HttpErrorMessage(status, statusText)))
            == Other("Hata: HTTP " + NatToString(status) + ": " + statusText)
  {
    HttpMessageNamesNoNetworkFailure(status, statusText);
    var d := NatToString(status);
    assert "Hata: " + HttpErrorMessage(status, statusText) == "Hata: HTTP " + d + ": " + statusText;
  }

  /** The HTTP error message names a network failure only when its status text does. */
  lemma HttpMessageNamesNoNetworkFailure(status: nat, statusText: string)
    ensures Includes(HttpErrorMessage(status, statusText), "Failed to fetch") <==> Includes(statusText, "Failed to fetch")
    ensures Includes(HttpErrorMessage(status, statusText), "NetworkError") <==> Includes(statusText, "NetworkError")
  {
    var p := HttpPrefix(status);
    HttpPrefixLetters(status);
    IncludesAfterPrefix(p, statusText, "Failed to fetch");
    IncludesAfterPrefix(p, statusText, "NetworkError");
  }

  /** The part of an HTTP error message before the status text. */
  function HttpPrefix(status: nat): string {
    "HTTP " + NatToString(status) + ": "
  }

  /** That part holds neither an `F` nor an `N`, the first letters of the two network markers. */
  lemma HttpPrefixLetters(status: nat)
    ensures 'F' !in HttpPrefix(status) && 'N' !in HttpPrefix(status)
  {
    var d := NatToString(status);
    assert HttpPrefix(status) == "HTTP " + d + ": ";
    assert 'F' !in d && 'N' !in d;
  }

  // ------------------------------------------------------------- video tab

  /** What the video tab shows. */
  datatype VideoView =
    | VideoReady(href: string, filename: string, showSelector: bool, selected: Option<string>)
    | VideoError(text: string)
    | VideoFailed(notice: ErrorNotice)

  /**
   * The video tab after the request: a non-ok reply is thrown as an HTTP
   * error and classified; a reply with a proxy link offers it; any other
   * reply shows its `error`. The `href` is the corrected first link
   * `InitialHref`, not the script's `InitialHrefAsWritten`.
   */
  function VideoViewOf(apiBase: string, r: Reply<DownloadBody>, statusText: string): VideoView {
    match r
    case Fail(status, _) =>
      VideoFailed(ClassifyFetchError(FetchError("Error", HttpErrorMessage(if status < 0 then 0 else status, statusText))))
    case Ok(b) =>
      if b.proxyDownloadUrl != "" then
        VideoReady(
          InitialHref(apiBase, b),
          VideoFilename(Some(b.title)),
          ShowQualitySelector(Some(b.qualities)),
          InitialSelection(Some(b.defaultQuality), Some(b.qualities)))
      else
        // a success reply carries no `error`, so `data.error || …` is the fallback
        VideoError("Hata: Bilinmeyen bir hata oluştu.")
  }

  /**
   * A successful download always reaches the ready view, with the selected
   * quality being the server's default and the selector shown exactly when
   * the server offers more than one quality. The `href` is the corrected
   * first link: the script as written shows `proxyDownloadUrl` alone
   * (`InitialHrefAsWritten`), and the view puts the API base in front of it.
   */
  lemma VideoViewForSuccess(apiBase: string, url: Option<string>, upstream: Fetched<VideoData>, enc: string -> string, statusText: string)
    requires HandleDownload(url, upstream, enc).Ok?
    ensures var b := HandleDownload(url, upstream, enc).body;
            var v := VideoViewOf(apiBase, HandleDownload(url, upstream, enc), statusText);
            && v.VideoReady?
            && v.selected == Some(b.defaultQuality)
            && (v.showSelector <==> PresentCount(Payload(upstream)) > 1)
            && v.href == apiBase + InitialHrefAsWritten(b)
  {
    SelectorForDownload(url, upstream, enc);
    DownloadSuccess(url, upstream, enc);
  }

  // ------------------------------------------------------------- story tab

  /**
   * `story.url || story.video_url || story.cover`, normalised only when the
   * pick is truthy.
   */
  function StoryUrl(s: Story): Option<string> {
    var u := Or(Or(s.url, s.videoUrl), s.cover);
    if Truthy(u) then Some(NormalizeUrl(u.value)) else u
  }

  /**
   * The story URL is the first truthy of `url`, `video_url` and `cover`,
   * normalised; when none is truthy it is `cover` as it came, unnormalised.
   */
  lemma StoryUrlChoice(s: Story)
    ensures Truthy(StoryUrl(s)) <==> Truthy(s.url) || Truthy(s.videoUrl) || Truthy(s.cover)
    ensures Truthy(s.url) ==> StoryUrl(s) == Some(NormalizeUrl(s.url.value))
    ensures !Truthy(s.url) && Truthy(s.videoUrl) ==> StoryUrl(s) == Some(NormalizeUrl(s.videoUrl.value))
    ensures !Truthy(s.url) && !Truthy(s.videoUrl) && Truthy(s.cover) ==> StoryUrl(s) == Some(NormalizeUrl(s.cover.value))
    ensures !Truthy(s.url) && !Truthy(s.videoUrl) && !Truthy(s.cover) ==> StoryUrl(s) == s.cover
  {
    OrChain(s.url, s.videoUrl, s.cover);
    var u := Or(Or(s.url, s.videoUrl), s.cover);
    if Truthy(u) {
      assert NormalizeUrl(u.value) != "";
    }
  }

  /** What the story tab shows. */
  datatype StoryView = StoryGrid(urls: seq<Option<string>>) | StoryMessage(text: string)

  const NoStoriesMessage: string := "Kullanıcının aktif hikayesi bulunamadı."

  /** The story tab after the request: one URL per story, a message for none, or the server's error. */
  function StoryViewOf(r: Reply<StoryBody>): StoryView {
    match r
    case Ok(b) =>
      if |b.stories| > 0 then StoryGrid(seq(|b.stories|, i requires 0 <= i < |b.stories| => StoryUrl(b.stories[i])))
      else StoryMessage(NoStoriesMessage)
    case Fail(_, e) => StoryMessage("Hata: " + OrElse(Some(e.error), "Hikaye bulunamadı."))
  }

  /**
   * The story grid holds one entry per upstream story, in order; an empty
   * story list from a successful reply is reported as no active story.
   */
  lemma StoryViewSpec(username: Option<string>, upstream: Fetched<seq<Story>>)
    ensures var r := HandleStory(username, upstream);
            r.Ok? && |Payload(upstream)| > 0 ==>
              && StoryViewOf(r).StoryGrid?
              && |StoryViewOf(r).urls| == |Payload(upstream)|
              && forall i :: 0 <= i < |Payload(upstream)| ==> StoryViewOf(r).urls[i] == StoryUrl(Payload(upstream)[i])
    ensures var r := HandleStory(username, upstream);
            r.Ok? && Payload(upstream) == [] ==> StoryViewOf(r) == StoryMessage(NoStoriesMessage)
  {
  }

  // ------------------------------------------------------------- photo tab

  /** What the photo tab shows: each image with the name it is downloaded under, or an error. */
  datatype PhotoView = PhotoGrid(urls: seq<string>, names: seq<string>) | PhotoError(text: string)

  /** `${data.title || 'photo'}_${index + 1}.jpg`: the download name of the image at `index`. */
  function PhotoName(title: string, index: nat): string {
    OrElse(Some(title), "photo") + "_" + NatToString(index + 1) + ".jpg"
  }

  /**
   * The photo tab after the request: the images, normalised once more, when
   * the reply is ok and holds at least one; otherwise `Hata: ` and the
   * server's error, or `Fotoğraf bulunamadı.` when there is none.
   */
  function PhotoViewOf(r: Reply<PhotoBody>): PhotoView {
    match r
    case Ok(b) =>
      if |b.images| > 0 then
        PhotoGrid(NormalizeAll(b.images), seq(|b.images|, i requires 0 <= i < |b.images| => PhotoName(b.title, i)))
      // a success reply carries no `error`, so `data.error || …` is the fallback
      else PhotoError("Hata: Fotoğraf bulunamadı.")
    case Fail(_, e) => PhotoError("Hata: " + OrElse(Some(e.error), "Fotoğraf bulunamadı."))
  }

  /**
   * A successful photo reply with no images is shown as an error although
   * the server answered 200; one with images shows exactly the server's
   * list, since normalising it again changes nothing.
   */
  lemma PhotoViewSpec(url: Option<string>, upstream: Fetched<VideoData>)
    requires HandlePhoto(url, upstream).Ok?
    ensures var b := HandlePhoto(url, upstream).body;
            b.images == [] ==> PhotoViewOf(HandlePhoto(url, upstream)) == PhotoError("Hata: Fotoğraf bulunamadı.")
    ensures var b := HandlePhoto(url, upstream).body;
            b.images != [] ==> PhotoViewOf(HandlePhoto(url, upstream)).PhotoGrid? && PhotoViewOf(HandlePhoto(url, upstream)).urls == b.images
    ensures !Payload(upstream).images.ImageList? ==>
              PhotoViewOf(HandlePhoto(url, upstream)) == PhotoError("Hata: Fotoğraf bulunamadı.")
  {
    var b := HandlePhoto(url, upstream).body;
    assert b.images == PhotoImages(Payload(upstream).images);
    var f := Payload(upstream).images;
    if f.ImageList? {
      NormalizeAllIdempotent(f.urls);
    }
  }

  /** Two numbered names with the same title are equal only for the same number. */
  lemma NumberedNameInjective(t: string, a: nat, b: nat)
    requires t + "_" + NatToString(a) + ".jpg" == t + "_" + NatToString(b) + ".jpg"
    ensures a == b
  {
    var x, y := NatToString(a), NatToString(b);
    var sx, sy := t + "_" + x + ".jpg", t + "_" + y + ".jpg";
    assert |x| == |y|;
    var lo := |t| + 1;
    assert sx[lo..lo + |x|] == x;
    assert sy[lo..lo + |y|] == y;
    NatToStringRoundTrip(a);
    NatToStringRoundTrip(b);
  }

  /**
   * Every image in the grid gets its own download name: the names are
   * pairwise distinct and each ends in its one-based position and `.jpg`.
   */
  lemma PhotoNamesDistinct(r: Reply<PhotoBody>)
    requires PhotoViewOf(r).PhotoGrid?
    ensures var v := PhotoViewOf(r);
            && |v.names| == |v.urls|
            && forall i, j :: 0 <= i < |v.names| && 0 <= j < |v.names| && v.names[i] == v.names[j] ==> i == j
  {
    var v := PhotoViewOf(r);
    var b := r.body;
    NormalizeAllAt(b.images);
    forall i, j | 0 <= i < |v.names| && 0 <= j < |v.names| && v.names[i] == v.names[j]
      ensures i == j
    {
      assert v.names[i] == PhotoName(b.title, i);
      assert v.names[j] == PhotoName(b.title, j);
      NumberedNameInjective(OrElse(Some(b.title), "photo"), i + 1, j + 1);
    }
  }

  // --------------------------------------------------------------- MP3 tab

  /** What the MP3 tab shows. */
  datatype Mp3View = Mp3Link(href: string, filename: string) | Mp3Error(text: string)

  /**
   * The MP3 tab after the request: any non-ok reply ends in the fixed
   * failure text; a truthy `videoUrl` is offered under the sanitised name.
   */
  function Mp3ViewOf(r: Reply<Mp3Body>): Mp3View {
    match r
    case Fail(_, _) => Mp3Error("MP3 indirme hatası oluştu.")
    case Ok(b) =>
      if b.videoUrl != "" then Mp3Link(b.videoUrl, Mp3Filename(Some(b.title)) + ".mp4")
      // a success reply carries no `error`, so `data.error || …` is the fallback
      else Mp3Error("Hata: Bilinmeyen bir hata oluştu.")
  }

  /**
   * The MP3 tab offers the server's URL under the same name the video tab
   * would give that title; an empty upstream `play` reaches the page as an
   * error although the server answered 200.
   */
  lemma Mp3ViewSpec(url: Option<string>, upstream: Fetched<VideoData>)
    requires HandleMp3(url, upstream).Ok?
    ensures var b := HandleMp3(url, upstream).body;
            b.videoUrl != "" ==> Mp3ViewOf(HandleMp3(url, upstream)) == Mp3Link(b.videoUrl, VideoFilename(Some(b.title)))
    ensures var b := HandleMp3(url, upstream).body;
            b.videoUrl == "" <==> Mp3ViewOf(HandleMp3(url, upstream)).Mp3Error?
  {
  }
}
