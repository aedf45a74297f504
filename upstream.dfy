/**
 * The replies of the tikwm.com API as the server reads them. Only the fields
 * the handlers look at are kept; a field the JSON does not carry is `None`.
 */
module Upstream {
  import opened Js

  /** The `images` field of a photo post: absent, present but not an array, or an array of URL strings. */
  datatype ImagesField = NoImages | NotAnArray | ImageList(urls: seq<string>)

  /**
   * `data.data` of `POST /api/`: media URLs in three qualities and the post's
   * metadata. `playIsNull` tells a `play` that is JSON `null` from one that
   * is missing; it is read only when `play` is `None`.
   */
  datatype VideoData = VideoData(
    nwmplay: Option<string>,
    hdplay: Option<string>,
    play: Option<string>,
    playIsNull: bool,
    title: Option<string>,
    author: Option<string>,
    cover: Option<string>,
    images: ImagesField)

  /** One element of `data.data` of `GET /api/user/story`; the server passes it through and the browser reads these three fields. */
  datatype Story = Story(url: Option<string>, videoUrl: Option<string>, cover: Option<string>)

  /** A JSON reply: the numeric `code` (0 means success), the `msg` text and the `data` payload. */
  datatype ApiReply<T> = ApiReply(code: Option<int>, msg: Option<string>, data: Option<T>)

  /**
   * How the call to tikwm.com ended: the request or the JSON parse threw
   * (with the error's message), or a JSON value was read, `None` being a
   * literal `null`.
   */
  datatype Fetched<T> = Thrown(message: string) | Parsed(json: Option<ApiReply<T>>)

  /** `data && data.code === 0 && data.data`: the upstream reported success and carried a payload. */
  predicate Succeeded<T>(f: Fetched<T>) {
    f.Parsed? && f.json.Some? && f.json.value.code == Some(0) && f.json.value.data.Some?
  }

  /** `data?.msg`: the message of a parsed reply, absent when the reply is `null` or the call threw. */
  function Msg<T>(f: Fetched<T>): Option<string> {
    if f.Parsed? && f.json.Some? then f.json.value.msg else None
  }
}
