/**
 * The decisions of the five server endpoints: each handler is a function
 * of the request fields it reads and of how its single upstream call ended
 * (the call itself, the JSON parse, the streaming and Express are not
 * modelled). `enc` and `dec` stand for `encodeURIComponent` and
 * `decodeURIComponent`; `dec` yields `None` where `decodeURIComponent` throws.
 */
module Backend {
  import opened Js
  import opened Urls
  import opened Upstream
  import opened Qualities

  /** `{ error, details }`; `details` is left out of some bodies. */
  datatype ErrorBody = ErrorBody(error: string, details: Option<string>)

  /** A JSON endpoint's answer: status 200 with the success body, or an error status with an error body. */
  datatype Reply<T> = Ok(body: T) | Fail(status: int, err: ErrorBody)

  /** The HTTP status of a reply. */
  function StatusOf<T>(r: Reply<T>): int {
    if r.Ok? then 200 else r.status
  }

  /** The payload of a successful upstream reply. */
  function Payload<T>(f: Fetched<T>): T
    requires Succeeded(f)
  {
    f.json.value.data.value
  }

  // ---------------------------------------------------------------- /download

  /** The success body of `POST /download`. */
  datatype DownloadBody = DownloadBody(
    downloadUrl: string,
    proxyDownloadUrl: string,
    defaultQuality: string,
    qualities: seq<Entry>,
    title: string,
    author: string,
    cover: string)

  /** `${encodeURIComponent(title || 'tiktok-video')}.mp4`, the file name the proxy link carries. */
  function DownloadFilename(enc: string -> string, title: Option<string>): string {
    enc(OrElse(title, "tiktok-video")) + ".mp4"
  }

  /**
   * `POST /download`: a falsy `url` is refused before any upstream call; a
   * thrown call, an upstream failure and a payload without any media URL are
   * 500s; otherwise the body holds every quality option, the default key and
   * the default option's URL, directly and behind the proxy path.
   */
  function HandleDownload(url: Option<string>, upstream: Fetched<VideoData>, enc: string -> string): (r: Reply<DownloadBody>)
    ensures r.Fail? ==> r.status == 400 || r.status == 500
    ensures (r.Fail? && r.status == 400) <==> !Truthy(url)
    ensures r.Ok? <==> Truthy(url) && Succeeded(upstream) && |QualityTable(Payload(upstream))| > 0
    ensures r.Ok? ==> |r.body.qualities| > 0
                      && Lookup(r.body.qualities, DefaultQuality(Payload(upstream))) == Some(r.body.qualities[0].option)
    ensures r.Ok? ==> r.body.downloadUrl == r.body.qualities[0].option.url
  {
    if !Truthy(url) then
      Fail(400, ErrorBody("URL is required", None))
    else if upstream.Thrown? then
      Fail(500, ErrorBody("Failed to download TikTok video.", Some(upstream.message)))
    else if !Succeeded(upstream) then
      Fail(500, ErrorBody("TikTok videosu indirilemedi.", Some(OrElse(Msg(upstream), "Bilinmeyen hata"))))
    else
      var d := Payload(upstream);
      var t := QualityTable(d);
      if |t| == 0 then
        Fail(500, ErrorBody("Video URL bulunamadı.", Some(OrElse(Msg(upstream), "Unknown error"))))
      else
        DefaultInTable(d);
        var dq := DefaultQuality(d);
        var selected := Lookup(t, dq).value.url;
        Ok(DownloadBody(
             selected,
             ProxyVideoPath(enc, selected, DownloadFilename(enc, d.title)),
             KeyName(dq),
             t,
             OrElse(d.title, "TikTok Video"),
             OrElse(d.author, ""),
             OrElse(d.cover, "")))
  }

  /** The four failure branches of `POST /download`, each with its status and error body. */
  lemma DownloadFailures(url: Option<string>, upstream: Fetched<VideoData>, enc: string -> string)
    ensures !Truthy(url) ==> HandleDownload(url, upstream, enc) == Fail(400, ErrorBody("URL is required", None))
    ensures Truthy(url) && upstream.Thrown? ==>
              HandleDownload(url, upstream, enc) == Fail(500, ErrorBody("Failed to download TikTok video.", Some(upstream.message)))
    ensures Truthy(url) && upstream.Parsed? && !Succeeded(upstream) ==>
              HandleDownload(url, upstream, enc) == Fail(500, ErrorBody("TikTok videosu indirilemedi.", Some(OrElse(Msg(upstream), "Bilinmeyen hata"))))
    ensures Truthy(url) && Succeeded(upstream) && (forall k :: !Truthy(Field(Payload(upstream), k))) ==>
              HandleDownload(url, upstream, enc) == Fail(500, ErrorBody("Video URL bulunamadı.", Some(OrElse(Msg(upstream), "Unknown error"))))
  {
    if Truthy(url) && Succeeded(upstream) {
      DefaultInTable(Payload(upstream));
    }
  }

  /**
   * A successful `POST /download`: the keys of `qualities` are exactly the
   * truthy upstream fields, in priority order, each with its normalised URL;
   * `defaultQuality` is the first of them; `downloadUrl` is that option's URL
   * and `proxyDownloadUrl` the proxy path for it; the metadata fall back to
   * `TikTok Video` and empty strings.
   */
  lemma DownloadSuccess(url: Option<string>, upstream: Fetched<VideoData>, enc: string -> string)
    requires HandleDownload(url, upstream, enc).Ok?
    ensures var b := HandleDownload(url, upstream, enc).body;
            var d := Payload(upstream);
            && (forall k :: k in Keys(b.qualities) <==> Truthy(Field(d, k)))
            && InPriorityOrder(Keys(b.qualities))
            && (forall i :: 0 <= i < |b.qualities| ==> BuiltFrom(d, b.qualities[i]))
            && b.defaultQuality == KeyName(DefaultQuality(d))
            && Truthy(Field(d, DefaultQuality(d)))
            && (forall k :: Truthy(Field(d, k)) ==> Rank(DefaultQuality(d)) <= Rank(k))
            && Lookup(b.qualities, DefaultQuality(d)) == Some(OptionFor(DefaultQuality(d), Field(d, DefaultQuality(d)).value))
            && b.downloadUrl == NormalizeUrl(Field(d, DefaultQuality(d)).value)
            && b.proxyDownloadUrl == ProxyVideoPath(enc, b.downloadUrl, DownloadFilename(enc, d.title))
            && b.title == OrElse(d.title, "TikTok Video") && b.title != ""
            && b.author == OrElse(d.author, "") && b.cover == OrElse(d.cover, "")
  {
    var d := Payload(upstream);
    var t := QualityTable(d);
    QualityTableKeys(d);
    QualityTableOrdered(d);
    QualityTableBuiltFrom(d);
    DefaultInTable(d);
    DefaultQualityIsFirstPresent(d);
    assert BuiltFrom(d, t[0]);
  }

  /** The upstream example with one protocol-relative `nwmplay` URL gives one `nwmplay` option at https and makes it the default. */
  lemma DownloadExample(enc: string -> string)
    ensures var d := VideoData(Some("//cdn/a.mp4"), None, None, false, Some("T"), None, None, NoImages);
            var r := HandleDownload(Some("https://www.tiktok.com/@u/video/1"), Parsed(Some(ApiReply(Some(0), None, Some(d)))), enc);
            && r.Ok?
            && r.body.qualities == [Entry(Nwmplay, QualityOption("https://cdn/a.mp4", "Filigransız (Standart Kalite)", "standart"))]
            && r.body.defaultQuality == "nwmplay"
            && r.body.downloadUrl == "https://cdn/a.mp4"
            && r.body.title == "T"
  {
    var d := VideoData(Some("//cdn/a.mp4"), None, None, false, Some("T"), None, None, NoImages);
    assert "//cdn/a.mp4"[..2] == "//";
    assert NormalizeUrl("//cdn/a.mp4") == "https://cdn/a.mp4";
    assert QualityTable(d) == [Entry(Nwmplay, OptionFor(Nwmplay, "//cdn/a.mp4"))];
    assert DefaultQuality(d) == Nwmplay;
  }

  // ------------------------------------------------------------- /proxy-video

  /** How fetching the media URL ended: it threw, or a response came back with a status and maybe a content type. */
  datatype MediaFetch = MediaThrew(message: string) | MediaResponse(status: int, contentType: Option<string>)

  /** `response.ok`: a status in 200..299. */
  predicate IsOkStatus(status: int) {
    200 <= status <= 299
  }

  /**
   * The proxy's answer: a plain-text status reply, or the relayed stream
   * with status 200, the copied content type if any, and the attachment
   * disposition.
   */
  datatype ProxyReply = Plain(status: int, text: string) | Relay(contentType: Option<string>, disposition: string)

  /** The file name used when the query carries none. */
  const DefaultProxyFilename: string := "tiktok-video.mp4"

  /** `attachment; filename="<name>"`. */
  function AttachmentDisposition(name: string): string {
    "attachment; filename=\"" + name + "\""
  }

  /** A character Node.js accepts in a header value: a tab, printable ASCII, or U+0080 to U+00FF. */
  predicate IsHeaderChar(c: char) {
    c == '\t' || (' ' <= c <= '~') || ('\U{0080}' <= c <= '\U{00FF}')
  }

  /** Node.js's check on a header value; `setHeader` throws a TypeError for a value that fails it. */
  predicate HeaderValueOk(s: string) {
    forall k :: 0 <= k < |s| ==> IsHeaderChar(s[k])
  }

  /** The disposition passes the header check exactly when the file name does. */
  lemma DispositionHeaderOk(name: string)
    ensures HeaderValueOk(AttachmentDisposition(name)) <==> HeaderValueOk(name)
  {
    var d := AttachmentDisposition(name);
    var p := "attachment; filename=\"";
    assert d == p + name + "\"";
    assert forall k :: 0 <= k < |p| ==> d[k] == p[k];
    assert forall k :: 0 <= k < |name| ==> d[|p| + k] == name[k];
    assert d[|d| - 1] == '\"';
    if HeaderValueOk(name) {
      forall k | 0 <= k < |d| ensures IsHeaderChar(d[k]) {
        if k < |p| {
          assert IsHeaderChar(p[k]);
        } else if k < |p| + |name| {
          assert d[k] == name[k - |p|];
        }
      }
    }
    if HeaderValueOk(d) {
      forall k | 0 <= k < |name| ensures IsHeaderChar(name[k]) {
        assert IsHeaderChar(d[|p| + k]);
      }
    }
  }

  /**
   * `GET /proxy-video`: a falsy `videoUrl` is a 400; a thrown fetch, a
   * throwing `decodeURIComponent` or a disposition `setHeader` refuses is a
   * 500; an upstream status outside 200..299 is passed through; otherwise
   * the stream is relayed.
   */
  function HandleProxy(videoUrl: Option<string>, filename: Option<string>, media: MediaFetch, dec: string -> Option<string>): (r: ProxyReply)
    ensures r == Plain(400, "Video URL is required.") <==> !Truthy(videoUrl)
    ensures r.Relay? <==> (Truthy(videoUrl) && media.MediaResponse? && IsOkStatus(media.status)
                           && dec(OrElse(filename, DefaultProxyFilename)).Some?
                           && HeaderValueOk(AttachmentDisposition(dec(OrElse(filename, DefaultProxyFilename)).value)))
  {
    if !Truthy(videoUrl) then
      Plain(400, "Video URL is required.")
    else if media.MediaThrew? then
      Plain(500, "Error proxying video.")
    else if !IsOkStatus(media.status) then
      Plain(media.status, "Failed to fetch video.")
    else
      var name := dec(OrElse(filename, DefaultProxyFilename));
      if name.None? || !HeaderValueOk(AttachmentDisposition(name.value)) then
        Plain(500, "Error proxying video.")
      else
        Relay(if Truthy(media.contentType) then media.contentType else None, AttachmentDisposition(name.value))
  }

  /**
   * The proxy's branches: an upstream error status comes back unchanged; a
   * thrown fetch, a name that does not decode, or a decoded name with a
   * character a header cannot carry gives 500; on success the content type
   * is copied only when present, and the disposition names the decoded
   * `filename`, or the decoded default name when `filename` is absent or
   * empty.
   */
  lemma ProxyDecisions(videoUrl: Option<string>, filename: Option<string>, media: MediaFetch, dec: string -> Option<string>)
    ensures Truthy(videoUrl) && media.MediaResponse? && !IsOkStatus(media.status) ==>
              HandleProxy(videoUrl, filename, media, dec) == Plain(media.status, "Failed to fetch video.")
    ensures Truthy(videoUrl) && media.MediaThrew? ==>
              HandleProxy(videoUrl, filename, media, dec) == Plain(500, "Error proxying video.")
    ensures var name := dec(OrElse(filename, DefaultProxyFilename));
            Truthy(videoUrl) && media.MediaResponse? && IsOkStatus(media.status) && (name.None? || !HeaderValueOk(name.value)) ==>
              HandleProxy(videoUrl, filename, media, dec) == Plain(500, "Error proxying video.")
    ensures var name := dec(OrElse(filename, DefaultProxyFilename));
            var r := HandleProxy(videoUrl, filename, media, dec);
            r.Relay? <==> Truthy(videoUrl) && media.MediaResponse? && IsOkStatus(media.status) && name.Some? && HeaderValueOk(name.value)
    ensures var r := HandleProxy(videoUrl, filename, media, dec);
            r.Relay? ==> ((r.contentType.Some? <==> Truthy(media.contentType))
                          && (r.contentType.Some? ==> r.contentType == media.contentType))
    ensures var r := HandleProxy(videoUrl, filename, media, dec);
            r.Relay? && Truthy(filename) ==> r.disposition == AttachmentDisposition(dec(filename.value).value)
    ensures var r := HandleProxy(videoUrl, filename, media, dec);
            r.Relay? && !Truthy(filename) ==> r.disposition == AttachmentDisposition(dec(DefaultProxyFilename).value)
  {
    var name := dec(OrElse(filename, DefaultProxyFilename));
    if name.Some? {
      DispositionHeaderOk(name.value);
    }
  }

  /**
   * A decoded file name holding a character above U+00FF, such as the `ş`
   * of `%C5%9F`, cannot go into the disposition header, so the proxy answers
   * 500 instead of relaying the file.
   */
  lemma ProxyRefusesWideName(videoUrl: string, media: MediaFetch, dec: string -> Option<string>, encoded: string)
    requires videoUrl != "" && media.MediaResponse? && IsOkStatus(media.status) && encoded != ""
    requires dec(encoded) == Some("\U{015F}.mp4")
    ensures HandleProxy(Some(videoUrl), Some(encoded), media, dec) == Plain(500, "Error proxying video.")
  {
    assert !IsHeaderChar("\U{015F}.mp4"[0]);
    DispositionHeaderOk("\U{015F}.mp4");
  }

  /**
   * With a decoder that leaves strings without `%` alone (as
   * `decodeURIComponent` does), an absent file name gives the attachment
   * name `tiktok-video.mp4`.
   */
  lemma ProxyDefaultFilename(videoUrl: string, media: MediaFetch, dec: string -> Option<string>)
    requires videoUrl != "" && media.MediaResponse? && IsOkStatus(media.status)
    requires dec(DefaultProxyFilename) == Some(DefaultProxyFilename)
    ensures HandleProxy(Some(videoUrl), None, media, dec).disposition == AttachmentDisposition("tiktok-video.mp4")
  {
    DispositionHeaderOk(DefaultProxyFilename);
  }

  // ------------------------------------------------------------ /download-mp3

  /** The success body of `POST /download-mp3`. */
  datatype Mp3Body = Mp3Body(videoUrl: string, title: string, author: string, message: string)

  const Mp3Message: string := "Video URL alındı. MP3 dönüşümü için video URL'sini kullanın."

  /** The text around the receiver's name in the TypeError Node.js raises for `x.startsWith(...)` on a missing value. */
  const TypeErrorHead: string := "Cannot read properties of "
  const TypeErrorTail: string := " (reading 'startsWith')"

  /**
   * The message of that TypeError for `undefined.startsWith(...)` or
   * `null.startsWith(...)`, which the handler's catch reports as `details`.
   */
  function StartsWithOnNothingMessage(isNull: bool): string {
    TypeErrorHead + (if isNull then "null" else "undefined") + TypeErrorTail
  }

  /** `data.data.nwmplay || data.data.hdplay || data.data.play`. */
  function Mp3Source(d: VideoData): Option<string> {
    Or(Or(d.nwmplay, d.hdplay), d.play)
  }

  /**
   * `POST /download-mp3`: the first truthy of the three media URLs, normalised.
   * When none is truthy and `play` is `null` or missing, `startsWith` is
   * called on that value and the catch turns the TypeError into a 500.
   */
  function HandleMp3(url: Option<string>, upstream: Fetched<VideoData>): (r: Reply<Mp3Body>)
    ensures (r.Fail? && r.status == 400) <==> !Truthy(url)
    ensures r.Ok? <==> Truthy(url) && Succeeded(upstream) && Mp3Source(Payload(upstream)).Some?
    ensures r.Ok? ==> r.body.videoUrl == NormalizeUrl(Mp3Source(Payload(upstream)).value)
  {
    if !Truthy(url) then
      Fail(400, ErrorBody("URL is required", None))
    else if upstream.Thrown? then
      Fail(500, ErrorBody("MP3 dönüştürme hatası.", Some(upstream.message)))
    else if !Succeeded(upstream) then
      Fail(500, ErrorBody("Video bulunamadı.", None))
    else
      var d := Payload(upstream);
      var source := Mp3Source(d);
      if source.None? then
        Fail(500, ErrorBody("MP3 dönüştürme hatası.", Some(StartsWithOnNothingMessage(d.playIsNull))))
      else
        Ok(Mp3Body(NormalizeUrl(source.value), OrElse(d.title, "TikTok Audio"), OrElse(d.author, ""), Mp3Message))
  }

  /**
   * The MP3 endpoint's failures: the missing URL, a thrown call (its
   * message as details), an upstream error without details, and the
   * TypeError when none of the three media fields is truthy and `play` is
   * `null` or missing, whose message names which of the two it was.
   */
  lemma Mp3Failures(url: Option<string>, upstream: Fetched<VideoData>)
    ensures !Truthy(url) ==> HandleMp3(url, upstream) == Fail(400, ErrorBody("URL is required", None))
    ensures Truthy(url) && upstream.Thrown? ==>
              HandleMp3(url, upstream) == Fail(500, ErrorBody("MP3 dönüştürme hatası.", Some(upstream.message)))
    ensures Truthy(url) && upstream.Parsed? && !Succeeded(upstream) ==>
              HandleMp3(url, upstream) == Fail(500, ErrorBody("Video bulunamadı.", None))
    ensures Truthy(url) && Succeeded(upstream) ==>
              (HandleMp3(url, upstream).Fail? <==>
                 !Truthy(Payload(upstream).nwmplay) && !Truthy(Payload(upstream).hdplay) && Payload(upstream).play.None?)
    ensures Truthy(url) && Succeeded(upstream) && HandleMp3(url, upstream).Fail? && Payload(upstream).playIsNull ==>
              HandleMp3(url, upstream) == Fail(500, ErrorBody("MP3 dönüştürme hatası.", Some(TypeErrorHead + "null" + TypeErrorTail)))
    ensures Truthy(url) && Succeeded(upstream) && HandleMp3(url, upstream).Fail? && !Payload(upstream).playIsNull ==>
              HandleMp3(url, upstream) == Fail(500, ErrorBody("MP3 dönüştürme hatası.", Some(TypeErrorHead + "undefined" + TypeErrorTail)))
  {
  }

  /**
   * The MP3 endpoint picks the same URL as the default quality of
   * `/download`, whenever some field is truthy.
   */
  lemma Mp3MatchesDefaultQuality(url: Option<string>, upstream: Fetched<VideoData>, enc: string -> string)
    requires Truthy(url) && Succeeded(upstream)
    requires exists k :: Truthy(Field(Payload(upstream), k))
    ensures HandleMp3(url, upstream).Ok?
    ensures HandleDownload(url, upstream, enc).Ok?
    ensures HandleMp3(url, upstream).body.videoUrl == HandleDownload(url, upstream, enc).body.downloadUrl
  {
    var d := Payload(upstream);
    DefaultInTable(d);
    DownloadSuccess(url, upstream, enc);
  }

  // ---------------------------------------------------------- /download-story

  /** The success body of `POST /download-story`: the upstream stories as they came, and the cleaned name. */
  datatype StoryBody = StoryBody(stories: seq<Story>, username: string)

  /** `username.replace('@', '').trim()`. */
  function CleanUsername(username: string): string {
    Trim(RemoveFirst(username, '@'))
  }

  /**
   * The cleaner removes the first `@` wherever it stands (not only a leading
   * one) and then the surrounding white space, so the name has one `@` fewer
   * when it had any, and cleaning twice only differs when a second `@` was there.
   */
  lemma CleanUsernameSpec(username: string)
    ensures '@' !in username ==> CleanUsername(username) == Trim(username)
    ensures '@' in username ==>
              CleanUsername(username) == Trim(username[..IndexOf(username, '@')] + username[IndexOf(username, '@') + 1..])
    ensures '@' in username ==> multiset(CleanUsername(username))['@'] == multiset(username)['@'] - 1
    ensures '@' !in username ==> '@' !in CleanUsername(username)
    ensures '@' !in CleanUsername(username) ==> CleanUsername(CleanUsername(username)) == CleanUsername(username)
  {
    RemoveFirstSpec(username, '@');
    var s := RemoveFirst(username, '@');
    TrimKeepsOthers(s, '@');
    var t := Trim(s);
    if '@' !in t {
      RemoveFirstAbsent(t, '@');
      TrimIdempotent(s);
    }
  }

  /**
   * `POST /download-story`: a falsy `username` is a 400; a successful
   * upstream reply passes its stories through with the cleaned name.
   */
  function HandleStory(username: Option<string>, upstream: Fetched<seq<Story>>): (r: Reply<StoryBody>)
    ensures (r.Fail? && r.status == 400) <==> !Truthy(username)
    ensures r.Ok? <==> Truthy(username) && Succeeded(upstream)
    ensures r.Ok? ==> r.body.stories == Payload(upstream) && r.body.username == CleanUsername(username.value)
  {
    if !Truthy(username) then
      Fail(400, ErrorBody("Username is required", None))
    else if upstream.Thrown? then
      Fail(500, ErrorBody("Hikaye indirme hatası.", Some(upstream.message)))
    else if !Succeeded(upstream) then
      Fail(500, ErrorBody("Hikaye bulunamadı veya kullanıcının aktif hikayesi yok.", None))
    else
      Ok(StoryBody(Payload(upstream), CleanUsername(username.value)))
  }

  /** The story endpoint's failures, each with its own message; only a thrown call carries details. */
  lemma StoryFailures(username: Option<string>, upstream: Fetched<seq<Story>>)
    ensures !Truthy(username) ==> HandleStory(username, upstream) == Fail(400, ErrorBody("Username is required", None))
    ensures Truthy(username) && upstream.Thrown? ==>
              HandleStory(username, upstream) == Fail(500, ErrorBody("Hikaye indirme hatası.", Some(upstream.message)))
    ensures Truthy(username) && upstream.Parsed? && !Succeeded(upstream) ==>
              HandleStory(username, upstream) == Fail(500, ErrorBody("Hikaye bulunamadı veya kullanıcının aktif hikayesi yok.", None))
  {
  }

  /** The emptiness check comes before the cleaning: `@` alone passes it and is cleaned to the empty name. */
  lemma StoryCheckPrecedesCleaning(upstream: Fetched<seq<Story>>)
    requires Succeeded(upstream)
    ensures HandleStory(Some("@"), upstream).Ok?
    ensures HandleStory(Some("@"), upstream).body.username == ""
  {
    assert RemoveFirst("@", '@') == "";
  }

  // ---------------------------------------------------------- /download-photo

  /** The success body of `POST /download-photo`. */
  datatype PhotoBody = PhotoBody(images: seq<string>, title: string, author: string, cover: string)

  /** The `images` list of the reply: the upstream array normalised element by element, or empty when there is no array. */
  function PhotoImages(f: ImagesField): seq<string> {
    if f.ImageList? then NormalizeAll(f.urls) else []
  }

  /** Builds `images` as the handler does: an empty array and one `push` per upstream element, in order. */
  method CollectImages(f: ImagesField) returns (images: seq<string>)
    ensures images == PhotoImages(f)
  {
    images := [];
    if f.ImageList? {
      var us := f.urls;
      var i := 0;
      while i < |us|
        invariant 0 <= i <= |us|
        invariant images == NormalizeAll(us[..i])
      {
        NormalizeAllSnoc(us[..i], us[i]);
        assert us[..i + 1] == us[..i] + [us[i]];
        images := images + [NormalizeUrl(us[i])];
        i := i + 1;
      }
      assert us[..i] == us;
    }
  }

  /**
   * `POST /download-photo`: a falsy `url` is a 400; a successful upstream
   * reply gives the normalised images (an empty list, still a success, when
   * `images` is missing or not an array).
   */
  function HandlePhoto(url: Option<string>, upstream: Fetched<VideoData>): (r: Reply<PhotoBody>)
    ensures (r.Fail? && r.status == 400) <==> !Truthy(url)
    ensures r.Ok? <==> Truthy(url) && Succeeded(upstream)
  {
    if !Truthy(url) then
      Fail(400, ErrorBody("URL is required", None))
    else if upstream.Thrown? then
      Fail(500, ErrorBody("Fotoğraf indirme hatası.", Some(upstream.message)))
    else if !Succeeded(upstream) then
      Fail(500, ErrorBody("Fotoğraf bulunamadı.", None))
    else
      var d := Payload(upstream);
      Ok(PhotoBody(PhotoImages(d.images), OrElse(d.title, "TikTok Photos"), OrElse(d.author, ""), OrElse(d.cover, "")))
  }

  /** The photo endpoint's failures, each with its own message; only a thrown call carries details. */
  lemma PhotoFailures(url: Option<string>, upstream: Fetched<VideoData>)
    ensures !Truthy(url) ==> HandlePhoto(url, upstream) == Fail(400, ErrorBody("URL is required", None))
    ensures Truthy(url) && upstream.Thrown? ==>
              HandlePhoto(url, upstream) == Fail(500, ErrorBody("Fotoğraf indirme hatası.", Some(upstream.message)))
    ensures Truthy(url) && upstream.Parsed? && !Succeeded(upstream) ==>
              HandlePhoto(url, upstream) == Fail(500, ErrorBody("Fotoğraf bulunamadı.", None))
  {
  }

  /**
   * The photo list has the upstream array's length and order, each element
   * normalised, and none left root- or protocol-relative; without an array
   * it is empty and the reply is still a success.
   */
  lemma PhotoImagesSpec(url: Option<string>, upstream: Fetched<VideoData>)
    requires HandlePhoto(url, upstream).Ok?
    ensures var b := HandlePhoto(url, upstream).body;
            var f := Payload(upstream).images;
            && (f.ImageList? ==> (|b.images| == |f.urls|
                                  && forall k :: 0 <= k < |f.urls| ==> b.images[k] == NormalizeUrl(f.urls[k])))
            && (!f.ImageList? ==> b.images == [])
            && (forall k :: 0 <= k < |b.images| ==> b.images[k] == [] || b.images[k][0] != '/')
  {
    var f := Payload(upstream).images;
    if f.ImageList? {
      NormalizeAllAt(f.urls);
    }
  }
}
