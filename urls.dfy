/**
 * The URL rules shared by the server and the browser script: the
 * normalisation of the media URLs tikwm.com returns, and the shape of the
 * `/proxy-video` link.
 */
module Urls {
  import opened Js

  /** The origin prefixed to root-relative URLs. */
  const TikwmOrigin: string := "https://tikwm.com"

  /**
   * The rule pasted at every site that exposes an upstream URL: a
   * protocol-relative `//host/...` gets `https:` in front, a root-relative
   * `/path` gets the tikwm.com origin in front, anything else is kept.
   * Normalising only ever prepends, and what comes out is never protocol-
   * or root-relative.
   */
  function NormalizeUrl(u: string): (r: string)
    ensures |u| <= |r| && r[|r| - |u|..] == u
    ensures r == [] || r[0] != '/'
    ensures StartsWith(u, "/") ==> StartsWith(r, "https://")
    ensures !StartsWith(u, "/") ==> r == u
  {
    if StartsWith(u, "//") then "https:" + u
    else if StartsWith(u, "/") then TikwmOrigin + u
    else u
  }

  /** The three cases of the rule, with the exact prefix each one adds. */
  lemma NormalizeCases(u: string)
    ensures |u| >= 2 && u[0] == '/' && u[1] == '/' ==> NormalizeUrl(u) == "https:" + u
    ensures |u| >= 1 && u[0] == '/' && (|u| == 1 || u[1] != '/') ==> NormalizeUrl(u) == "https://tikwm.com" + u
    ensures u == [] || u[0] != '/' ==> NormalizeUrl(u) == u
  {
    if |u| >= 2 && u[0] == '/' && u[1] == '/' {
      assert u[..2] == "//";
    } else if |u| >= 1 && u[0] == '/' {
      assert u[..1] == "/";
      assert !StartsWith(u, "//");
    }
  }

  /** Normalising an already normalised URL changes nothing. */
  lemma NormalizeIdempotent(u: string)
    ensures NormalizeUrl(NormalizeUrl(u)) == NormalizeUrl(u)
  {
    var r := NormalizeUrl(u);
    assert r == [] || r[0] != '/';
    assert !StartsWith(r, "/");
  }

  /** Normalises every URL of a list, one by one in order. */
  function NormalizeAll(us: seq<string>): seq<string>
    decreases |us|
  {
    if us == [] then [] else [NormalizeUrl(us[0])] + NormalizeAll(us[1..])
  }

  /** Normalising a list with one more element at the end appends that element, normalised. */
  lemma {:induction false} NormalizeAllSnoc(us: seq<string>, u: string)
    ensures NormalizeAll(us + [u]) == NormalizeAll(us) + [NormalizeUrl(u)]
    decreases |us|
  {
    if us == [] {
      assert us + [u] == [u];
    } else {
      assert (us + [u])[1..] == us[1..] + [u];
      NormalizeAllSnoc(us[1..], u);
    }
  }

  /** `NormalizeAll` keeps the length. */
  lemma {:induction false} NormalizeAllLength(us: seq<string>)
    ensures |NormalizeAll(us)| == |us|
    decreases |us|
  {
    if us != [] {
      NormalizeAllLength(us[1..]);
    }
  }

  /** Element `k` of the normalised list is the normalised element `k`. */
  lemma {:induction false} NormalizeAllIndex(us: seq<string>, k: nat)
    requires k < |us|
    ensures |NormalizeAll(us)| == |us| && NormalizeAll(us)[k] == NormalizeUrl(us[k])
    decreases k
  {
    NormalizeAllLength(us);
    if k > 0 {
      NormalizeAllIndex(us[1..], k - 1);
      assert us[1..][k - 1] == us[k];
    }
  }

  /** `NormalizeAll` keeps the length and the order: element `k` is the normalised element `k`. */
  lemma NormalizeAllAt(us: seq<string>)
    ensures |NormalizeAll(us)| == |us|
    ensures forall k :: 0 <= k < |us| ==> NormalizeAll(us)[k] == NormalizeUrl(us[k])
  {
    NormalizeAllLength(us);
    forall k | 0 <= k < |us| ensures NormalizeAll(us)[k] == NormalizeUrl(us[k]) {
      NormalizeAllIndex(us, k);
    }
  }

  /** Normalising a normalised list again changes nothing. */
  lemma NormalizeAllIdempotent(us: seq<string>)
    ensures NormalizeAll(NormalizeAll(us)) == NormalizeAll(us)
  {
    var vs := NormalizeAll(us);
    NormalizeAllAt(us);
    NormalizeAllAt(vs);
    forall k | 0 <= k < |vs| ensures NormalizeAll(vs)[k] == vs[k] {
      NormalizeIdempotent(us[k]);
    }
  }

  /**
   * `/proxy-video?videoUrl=<enc(videoUrl)>&filename=<enc(filename)>`, the
   * path of the proxy endpoint; `enc` stands for `encodeURIComponent`.
   */
  function ProxyVideoPath(enc: string -> string, videoUrl: string, filename: string): string {
    "/proxy-video?videoUrl=" + enc(videoUrl) + "&filename=" + enc(filename)
  }

  /** Every proxy path starts with `/proxy-video?videoUrl=`, so it is origin-relative. */
  lemma ProxyVideoPathStart(enc: string -> string, videoUrl: string, filename: string)
    ensures StartsWith(ProxyVideoPath(enc, videoUrl, filename), "/proxy-video?videoUrl=")
    ensures ProxyVideoPath(enc, videoUrl, filename)[0] == '/'
  {
    var prefix := "/proxy-video?videoUrl=";
    var p := ProxyVideoPath(enc, videoUrl, filename);
    assert p == prefix + (enc(videoUrl) + "&filename=" + enc(filename));
    assert p[..|prefix|] == prefix;
  }

  /**
   * The query of a proxy path reads back as its two encoded values: the
   * `videoUrl` value runs from after `videoUrl=` up to the first `&`, which
   * is the separator as long as the encoder never emits `&` (as
   * `encodeURIComponent` never does), and the rest is `filename=` and the
   * encoded file name.
   */
  lemma ProxyVideoPathFields(enc: string -> string, videoUrl: string, filename: string)
    requires '&' !in enc(videoUrl)
    ensures var p := ProxyVideoPath(enc, videoUrl, filename);
            var q := p[|"/proxy-video?videoUrl="|..];
            && StartsWith(p, "/proxy-video?videoUrl=")
            && IndexOf(q, '&') == |enc(videoUrl)|
            && q[..IndexOf(q, '&')] == enc(videoUrl)
            && q[IndexOf(q, '&') + 1..] == "filename=" + enc(filename)
  {
    var p := ProxyVideoPath(enc, videoUrl, filename);
    var prefix := "/proxy-video?videoUrl=";
    var e := enc(videoUrl);
    var q := p[|prefix|..];
    assert p == prefix + (e + "&filename=" + enc(filename));
    assert q == e + "&filename=" + enc(filename);
    assert q[|e|] == '&';
    assert q[..|e|] == e;
    assert q[|e| + 1..] == "filename=" + enc(filename);
  }
}
