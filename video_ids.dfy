/**
 Video-id extraction (`getVideoIds`, main.js:50-110): a decision table over
 the scheme prefix of the raw text, the hostname, the pathname and the `v`
 query parameter of the parsed URL. The WHATWG URL parser is not part of
 this model: its outcome is an input (`None` when `new URL` throws).
 */
module VideoIds {
  import opened Strings

  /** The parts of a parsed URL that the extractor reads. */
  datatype Url = Url(hostname: string, pathname: string, searchParams: seq<(string, string)>)

  const YouTubeHosts: seq<string> := ["www.youtube.com", "youtube.com", "youtu.be"]
  const FacebookHosts: seq<string> := ["www.facebook.com", "facebook.com", "m.facebook.com", "web.facebook.com"]

  /** The three path markers of the pattern `/\/(?:videos?|reel)\/(\d+)/`. */
  const VideoMarkers: seq<string> := ["/videos/", "/video/", "/reel/"]

  /** `searchParams.get(name)`: the value of the first pair with that name. */
  function SearchParam(params: seq<(string, string)>, name: string): (r: Option<string>)
    ensures r.None? <==> forall k :: 0 <= k < |params| ==> params[k].0 != name
    ensures r.Some? ==> exists k :: 0 <= k < |params| && params[k] == (name, r.value)
                                     && forall j :: 0 <= j < k ==> params[j].0 != name
  {
    if params == [] then None
    else if params[0].0 == name then Some(params[0].1)
    else
      var r := SearchParam(params[1..], name);
      assert r.Some? ==> exists k :: 0 <= k < |params| - 1 && params[1..][k] == (name, r.value)
                                   && forall j :: 0 <= j < k ==> params[1..][j].0 != name;
      assert r.Some? ==> exists k :: 1 <= k < |params| && params[k] == (name, r.value)
                                   && forall j :: 0 <= j < k ==> params[j].0 != name;
      r
  }

  /** Marker `m` starts at `i` and a digit follows it. */
  predicate MarkerDigitAt(path: string, i: nat, m: string)
    requires i <= |path|
  {
    StartsWith(path[i..], m) && i + |m| < |path| && IsDigit(path[i + |m|])
  }

  /** The pattern matches at position `i` of `path`: one of its markers, then a digit. */
  predicate VideoMatchAt(path: string, i: nat)
    requires i <= |path|
  {
    MarkerDigitAt(path, i, VideoMarkers[0]) || MarkerDigitAt(path, i, VideoMarkers[1])
    || MarkerDigitAt(path, i, VideoMarkers[2])
  }

  /** The length of the marker that starts at `i`, tried in the pattern's order. */
  function MarkerLength(path: string, i: nat): (n: nat)
    requires i <= |path|
  {
    if StartsWith(path[i..], VideoMarkers[0]) then |VideoMarkers[0]|
    else if StartsWith(path[i..], VideoMarkers[1]) then |VideoMarkers[1]|
    else if StartsWith(path[i..], VideoMarkers[2]) then |VideoMarkers[2]|
    else 0
  }

  /**
   At most one marker begins at any position, so the marker the search
   takes is the one the pattern matched.
   */
  lemma MarkerLengthMatches(path: string, i: nat)
    requires i <= |path|
    ensures VideoMatchAt(path, i) ==> MarkerDigitAt(path, i, path[i..i + MarkerLength(path, i)])
  {
    var s := path[i..];
    if StartsWith(s, VideoMarkers[0]) {
      assert s[..8] == "/videos/";
    } else if StartsWith(s, VideoMarkers[1]) {
      assert s[..7] == "/video/";
    } else if StartsWith(s, VideoMarkers[2]) {
      assert s[..6] == "/reel/";
    } else if VideoMatchAt(path, i) {
      assert false;
    }
  }

  /** The digits captured by `(\d+)` when the pattern matches at `i`. */
  function CapturedDigits(path: string, i: nat): (r: string)
    requires i <= |path|
    requires VideoMatchAt(path, i)
    ensures r != [] && forall k :: 0 <= k < |r| ==> IsDigit(r[k])
  {
    MarkerLengthMatches(path, i);
    DigitRun(path[i + MarkerLength(path, i)..])
  }

  /**
   Where `/\/(?:videos?|reel)\/(\d+)/` matches first, searching from
   position `from`: the leftmost matching position, or none exactly when
   there is no such position.
   */
  function FirstVideoMatch(path: string, from: nat): (r: Option<nat>)
    requires from <= |path|
    decreases |path| - from
    ensures r.None? <==> forall i :: from <= i <= |path| ==> !VideoMatchAt(path, i)
    ensures r.Some? ==> from <= r.value <= |path| && VideoMatchAt(path, r.value)
                        && forall i :: from <= i < r.value ==> !VideoMatchAt(path, i)
  {
    if VideoMatchAt(path, from) then Some(from)
    else if from == |path| then None
    else FirstVideoMatch(path, from + 1)
  }

  /** `path.match(/\/(?:videos?|reel)\/(\d+)/)`: the digits captured at the first match. */
  function FacebookVideoMatch(path: string): (r: Option<string>)
    ensures r.Some? ==> r.value != [] && forall k :: 0 <= k < |r.value| ==> IsDigit(r.value[k])
  {
    match FirstVideoMatch(path, 0)
    case None => None
    case Some(i) => Some(CapturedDigits(path, i))
  }

  /**
   `path.split('/')[2]` for a path that starts with `prefix`, a word between
   two slashes: the text after `prefix` up to the next `/`.
   */
  function SecondSegment(path: string, prefix: string): (r: string)
    requires |prefix| >= 2 && prefix[0] == '/' && prefix[|prefix| - 1] == '/'
    requires forall k :: 0 < k < |prefix| - 1 ==> prefix[k] != '/'
    requires StartsWith(path, prefix)
    ensures r == TakeUntil(path[|prefix|..], {'/'})
  {
    var word, rest := prefix[1..|prefix| - 1], path[|prefix|..];
    assert path == "/" + word + "/" + rest by {
      assert prefix == "/" + word + "/";
      assert path == path[..|prefix|] + rest;
    }
    ThirdPiece(word, rest);
    Split(path, '/')[2]
  }

  /** `pathname.split('/')[2]` for a `/shorts/` path. */
  function ShortsId(path: string): (r: string)
    requires StartsWith(path, "/shorts/")
    ensures r == TakeUntil(path[8..], {'/'})
  {
    var p := "/shorts/";
    assert p[0] == '/' && p[7] == '/' && forall k :: 0 < k < 7 ==> p[k] != '/';
    SecondSegment(path, p)
  }

  /** `pathname.split('/')[2]` for a `/reel/` path. */
  function ReelId(path: string): (r: string)
    requires StartsWith(path, "/reel/")
    ensures r == TakeUntil(path[6..], {'/'})
  {
    var p := "/reel/";
    assert p[0] == '/' && p[5] == '/' && forall k :: 0 < k < 5 ==> p[k] != '/';
    SecondSegment(path, p)
  }

  /** The hosts the extractor recognises at all. */
  predicate KnownHost(host: string) {
    host in YouTubeHosts || host in FacebookHosts
  }

  predicate IsHttpUrl(s: string) {
    StartsWith(s, "http://") || StartsWith(s, "https://")
  }

  /**
   `getVideoIds(url)`. `parsed` is what `new URL(url)` yields (`None` when it
   throws). The result is `None` for JavaScript's `null`; `Some("")` can
   occur (an empty `/shorts/` or `/reel/` segment) and callers treat it as
   falsy.
   */
  function GetVideoIds(url: string, parsed: Option<Url>): (r: Option<string>)
    ensures r.Some? ==> IsHttpUrl(url) && parsed.Some? && KnownHost(parsed.value.hostname)
  {
    if url == "" then None
    else if !StartsWith(url, "http://") && !StartsWith(url, "https://") then None
    else match parsed
      case None => None
      case Some(u) =>
        if u.hostname in YouTubeHosts && u.hostname == "youtu.be" then
          var videoId := Drop1(u.pathname);
          if |videoId| == 11 then Some(videoId) else None
        else if u.hostname in YouTubeHosts && Contains(u.hostname, "youtube.com") then
          if StartsWith(u.pathname, "/shorts/") then
            Some(ShortsId(u.pathname))
          else
            var videoId := SearchParam(u.searchParams, "v");
            if videoId.Some? && videoId.value != "" && |videoId.value| == 11 then videoId else None
        else if u.hostname in FacebookHosts then
          if StartsWith(u.pathname, "/reel/") then
            Some(ReelId(u.pathname))
          else
            FacebookVideoMatch(u.pathname)
        else None
  }

  /** Input that does not start with `http://` or `https://` gives null, whatever the parser would say. */
  lemma NonHttpIsNull(url: string, parsed: Option<Url>)
    requires !IsHttpUrl(url)
    ensures GetVideoIds(url, parsed) == None
  {
  }

  /** `youtu.be`: the pathname without its leading `/`, kept exactly when it has 11 characters. */
  lemma ShortLink(url: string, path: string, params: seq<(string, string)>)
    requires IsHttpUrl(url)
    ensures var r := GetVideoIds(url, Some(Url("youtu.be", path, params)));
            && (r.Some? <==> |path| == 12)
            && (r.Some? ==> r.value == path[1..] && |r.value| == 11)
  {
  }

  /** `youtube.com` and `www.youtube.com` are listed, and neither is `youtu.be`. */
  lemma YouTubeDotComIsListed(host: string)
    requires host == "youtube.com" || host == "www.youtube.com"
    ensures host in YouTubeHosts && host != "youtu.be"
  {
    assert host == YouTubeHosts[0] || host == YouTubeHosts[1];
    assert host[5] != "youtu.be"[5];
  }

  /** Both take the `youtube.com` branch. */
  lemma YouTubeDotComContainsItself(host: string)
    requires host == "youtube.com" || host == "www.youtube.com"
    ensures Contains(host, "youtube.com")
  {
    if host == "youtube.com" {
      ContainsMiddle("", host, "");
    } else {
      ContainsMiddle("www.", "youtube.com", "");
      assert "www." + "youtube.com" + "" == host;
    }
  }

  /** `youtube.com/shorts/<id>`: the segment after `/shorts/`, with no length check. */
  lemma Shorts(url: string, host: string, rest: string, params: seq<(string, string)>)
    requires IsHttpUrl(url)
    requires host == "youtube.com" || host == "www.youtube.com"
    ensures GetVideoIds(url, Some(Url(host, "/shorts/" + rest, params))) == Some(TakeUntil(rest, {'/'}))
  {
    YouTubeDotComIsListed(host);
    YouTubeDotComContainsItself(host);
    assert StartsWith("/shorts/" + rest, "/shorts/");
    assert ("/shorts/" + rest)[|"/shorts/"|..] == rest;
  }

  /** Other `youtube.com` paths: the first `v` parameter, exactly when it has 11 characters. */
  lemma Watch(url: string, host: string, path: string, params: seq<(string, string)>)
    requires IsHttpUrl(url)
    requires host == "youtube.com" || host == "www.youtube.com"
    requires !StartsWith(path, "/shorts/")
    ensures var r := GetVideoIds(url, Some(Url(host, path, params)));
            var v := SearchParam(params, "v");
            && (r.Some? <==> v.Some? && |v.value| == 11)
            && (r.Some? ==> r == v)
  {
    YouTubeDotComIsListed(host);
    YouTubeDotComContainsItself(host);
  }

  /** The two host lists are disjoint. */
  lemma FacebookIsNotYouTube(host: string)
    requires host in FacebookHosts
    ensures host !in YouTubeHosts
  {
    assert forall k :: 0 <= k < |YouTubeHosts| ==> YouTubeHosts[k][0] == 'w' || YouTubeHosts[k][0] == 'y';
    if host[0] == 'w' {
      assert host == FacebookHosts[0] || host == FacebookHosts[3];
      assert host[4] == 'f';
      assert YouTubeHosts[0][4] == 'y';
    }
  }

  /** Facebook `/reel/<id>`: the segment after `/reel/`. */
  lemma FacebookReel(url: string, host: string, rest: string, params: seq<(string, string)>)
    requires IsHttpUrl(url)
    requires host in FacebookHosts
    ensures GetVideoIds(url, Some(Url(host, "/reel/" + rest, params))) == Some(TakeUntil(rest, {'/'}))
  {
    FacebookIsNotYouTube(host);
    assert StartsWith("/reel/" + rest, "/reel/");
    assert ("/reel/" + rest)[|"/reel/"|..] == rest;
  }

  /**
   Other Facebook paths: the digits after the leftmost `/video/`, `/videos/`
   or `/reel/` followed by a digit, and null when there is none.
   */
  lemma FacebookVideo(url: string, host: string, path: string, params: seq<(string, string)>)
    requires IsHttpUrl(url)
    requires host in FacebookHosts
    requires !StartsWith(path, "/reel/")
    ensures var r := GetVideoIds(url, Some(Url(host, path, params)));
            var m := FirstVideoMatch(path, 0);
            && (r.None? <==> forall i :: 0 <= i <= |path| ==> !VideoMatchAt(path, i))
            && (r.Some? ==> m.Some? && r.value == CapturedDigits(path, m.value))
            && (r.Some? ==> r.value != [] && forall k :: 0 <= k < |r.value| ==> IsDigit(r.value[k]))
  {
    FacebookIsNotYouTube(host);
    assert GetVideoIds(url, Some(Url(host, path, params))) == FacebookVideoMatch(path);
  }

  /** Any host outside the two lists, `m.youtube.com` included, gives null. */
  lemma OtherHost(url: string, u: Url)
    requires !KnownHost(u.hostname)
    ensures GetVideoIds(url, Some(u)) == None
  {
  }

  lemma MobileYouTubeIsNull(url: string, path: string, params: seq<(string, string)>)
    ensures GetVideoIds(url, Some(Url("m.youtube.com", path, params))) == None
  {
    OtherHost(url, Url("m.youtube.com", path, params));
  }

  /** `https://youtu.be/dQw4w9WgXcQ` gives `dQw4w9WgXcQ`. */
  lemma ShortLinkExample()
    ensures GetVideoIds("https://youtu.be/dQw4w9WgXcQ", Some(Url("youtu.be", "/dQw4w9WgXcQ", [])))
            == Some("dQw4w9WgXcQ")
  {
    assert StartsWith("https://youtu.be/dQw4w9WgXcQ", "https://");
  }
}
