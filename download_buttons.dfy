/**
 The response renderer's derived values: the thumbnail choice of
 `handleSuccessResponse` (main.js:363-368) and the download buttons of
 `generateDownloadButtons` (main.js:414-484), built as a sequence of
 button records instead of HTML text appended to the page.
 */
module DownloadButtons {
  import opened Strings
  import VideoIds
  import QueryParams
  import Colors

  /** One entry of `data.downloads`; an absent field is the empty string (falsy, like `undefined`). */
  datatype Download = Download(url: string, formatId: string, size: string)

  /**
   The `data` envelope of a successful response. `sourceUrl` is what
   `new URL(source)` yields (`None` when it throws).
   */
  datatype VideoData = VideoData(
    source: string,
    sourceUrl: Option<VideoIds.Url>,
    title: string,
    thumbnail: string,
    downloads: seq<Download>)

  /** A download button: the URL it downloads, the suggested file name, its background colour and its text. */
  datatype Button = Button(href: string, filename: string, color: string, text: string)

  const Qualities: seq<string> := ["mp3", "360", "720", "1080"]
  const MaxTitleLength: nat := 50
  const ThumbnailPrefix: string := "https://i.ytimg.com/vi/"
  const ThumbnailSuffix: string := "/hqdefault.jpg"

  /** `isYouTube`: the source is present and names a YouTube host somewhere. */
  predicate IsYouTubeSource(source: string) {
    source != "" && (Contains(source, "youtube.com") || Contains(source, "youtu.be"))
  }

  /** `isYouTube && videoId`: the video id, when the source is YouTube and its id is truthy. */
  function YouTubeId(v: VideoData): Option<string> {
    var videoId := VideoIds.GetVideoIds(v.source, v.sourceUrl);
    if IsYouTubeSource(v.source) && videoId.Some? && videoId.value != "" then videoId else None
  }

  /** `thumbnailUrl`: the fixed YouTube template around the id, else the payload's thumbnail. */
  function Thumbnail(v: VideoData): string {
    match YouTubeId(v)
    case Some(id) => ThumbnailPrefix + id + ThumbnailSuffix
    case None => v.thumbnail
  }

  /** The id back out of a templated thumbnail URL. */
  function ThumbnailId(url: string): Option<string> {
    if |url| >= |ThumbnailPrefix| + |ThumbnailSuffix| && StartsWith(url, ThumbnailPrefix)
       && url[|url| - |ThumbnailSuffix|..] == ThumbnailSuffix
    then Some(url[|ThumbnailPrefix|..|url| - |ThumbnailSuffix|])
    else None
  }

  /**
   For a YouTube source with an id the thumbnail is the template, and the
   id can be read back from it; for any other source it is the payload's
   thumbnail.
   */
  lemma ThumbnailChoice(v: VideoData)
    ensures YouTubeId(v).Some? ==>
              StartsWith(Thumbnail(v), ThumbnailPrefix) && ThumbnailId(Thumbnail(v)) == YouTubeId(v)
    ensures YouTubeId(v).None? ==> Thumbnail(v) == v.thumbnail
  {
    if YouTubeId(v).Some? {
      var id := YouTubeId(v).value;
      var url := ThumbnailPrefix + id + ThumbnailSuffix;
      assert url[..|ThumbnailPrefix|] == ThumbnailPrefix;
      assert url[|url| - |ThumbnailSuffix|..] == ThumbnailSuffix;
      assert url[|ThumbnailPrefix|..|url| - |ThumbnailSuffix|] == id;
    }
  }

  /** `s.replace(/[^a-zA-Z0-9]/g, '_')` */
  function ReplaceNonAlnum(s: string): (r: string)
    ensures |r| == |s|
    ensures forall i :: 0 <= i < |s| ==> r[i] == if IsAlnum(s[i]) then s[i] else '_'
  {
    if s == [] then "" else [if IsAlnum(s[0]) then s[0] else '_'] + ReplaceNonAlnum(s[1..])
  }

  /**
   `safeTitle`: the title (`video` when there is none), every character
   outside `[a-zA-Z0-9]` replaced by `_`, cut to at most 50 characters.
   */
  function SafeTitle(title: string): (r: string)
    ensures 0 < |r| <= MaxTitleLength
    ensures forall i :: 0 <= i < |r| ==> IsAlnum(r[i]) || r[i] == '_'
    ensures var t := if title == "" then "video" else title;
            && |r| == (if |t| <= MaxTitleLength then |t| else MaxTitleLength)
            && forall i :: 0 <= i < |r| ==> r[i] == if IsAlnum(t[i]) then t[i] else '_'
  {
    var t := if title == "" then "video" else title;
    var s := ReplaceNonAlnum(t);
    if |s| <= MaxTitleLength then s else s[..MaxTitleLength]
  }

  /** Sanitising a title that is already safe changes nothing. */
  lemma SafeTitleIdempotent(title: string)
    ensures SafeTitle(SafeTitle(title)) == SafeTitle(title)
  {
    var r := SafeTitle(title);
    var rr := SafeTitle(r);
    assert |rr| == |r|;
    forall i | 0 <= i < |r| ensures rr[i] == r[i] {
      if IsAlnum(r[i]) {
      } else {
        assert r[i] == '_';
        assert ReplaceNonAlnum(r)[i] == '_';
      }
    }
  }

  /** `download.format_id || 'mp4'` */
  function Extension(formatId: string): (r: string)
    ensures r != ""
    ensures formatId != "" ==> r == formatId
    ensures formatId == "" ==> r == "mp4"
  {
    if formatId != "" then formatId else "mp4"
  }

  /** `safeFilename`: the safe title, `_`, the extension, `.mp4`. */
  function Filename(title: string, formatId: string): (r: string)
    ensures |r| == |SafeTitle(title)| + 1 + |Extension(formatId)| + 4
    ensures StartsWith(r, SafeTitle(title) + "_")
    ensures r[|SafeTitle(title)| + 1..|r| - 4] == Extension(formatId)
    ensures r[|r| - 4..] == ".mp4"
    ensures |r| <= MaxTitleLength + 1 + |Extension(formatId)| + 4
  {
    var head, ext := SafeTitle(title) + "_", Extension(formatId);
    var r := head + ext + ".mp4";
    assert r[..|head|] == head;
    assert r[|head|..|r| - 4] == ext;
    assert r[|r| - 4..] == ".mp4";
    r
  }

  /** For one title, two formats give the same file name exactly when their extensions agree. */
  lemma FilenameSeparatesFormats(title: string, f: string, g: string)
    ensures Filename(title, f) == Filename(title, g) <==> Extension(f) == Extension(g)
  {
    var r, t, n := Filename(title, f), Filename(title, g), |SafeTitle(title)| + 1;
    if r == t {
      assert r[n..|r| - 4] == t[n..|t| - 4];
    }
  }

  /** `download.size || 'Unknown size'` */
  function SizeText(size: string): (r: string)
    ensures r != ""
    ensures size != "" ==> r == size
    ensures size == "" ==> r == "Unknown size"
  {
    if size != "" then size else "Unknown size"
  }

  /** The button text `${videoExt} - ${videoSize}`. */
  function FormatLabel(d: Download): (r: string)
    ensures |r| == |Extension(d.formatId)| + 3 + |SizeText(d.size)|
    ensures StartsWith(r, Extension(d.formatId) + " - ")
    ensures r[|Extension(d.formatId)| + 3..] == SizeText(d.size)
  {
    var head, size := Extension(d.formatId) + " - ", SizeText(d.size);
    var r := head + size;
    assert r[..|head|] == head;
    assert r[|head|..] == size;
    r
  }

  /**
   Two downloads of the same format get the same button text exactly when
   their sizes read the same, an absent size reading `Unknown size`.
   */
  lemma FormatLabelSeparatesSizes(d: Download, e: Download)
    requires Extension(d.formatId) == Extension(e.formatId)
    ensures FormatLabel(d) == FormatLabel(e) <==> SizeText(d.size) == SizeText(e.size)
  {
    var n := |Extension(d.formatId)| + 3;
    if FormatLabel(d) == FormatLabel(e) {
      assert FormatLabel(d)[n..] == FormatLabel(e)[n..];
    }
  }

  /** A download gives a button when it has a URL that starts with `http://` or `https://`. */
  predicate Eligible(d: Download) {
    d.url != "" && VideoIds.IsHttpUrl(d.url)
  }

  /** The button of one eligible download. */
  function FormatButton(title: string, d: Download): Button {
    var itag := QueryParams.GetParameterByName("itag", d.url);
    Button(d.url, Filename(title, d.formatId), Colors.ButtonColor(itag), FormatLabel(d))
  }

  /** The buttons of the downloads in `ds`, in order, skipping the ineligible ones. */
  function FormatButtons(title: string, ds: seq<Download>): seq<Button> {
    if ds == [] then []
    else
      var last := ds[|ds| - 1];
      FormatButtons(title, ds[..|ds| - 1]) + (if Eligible(last) then [FormatButton(title, last)] else [])
  }

  /** Extending the prefix of `ds` by one download adds that download's button, if any. */
  lemma FormatButtonsPrefix(title: string, ds: seq<Download>, i: nat)
    requires i < |ds|
    ensures FormatButtons(title, ds[..i + 1])
            == FormatButtons(title, ds[..i]) + (if Eligible(ds[i]) then [FormatButton(title, ds[i])] else [])
  {
    assert ds[..i + 1][..i] == ds[..i];
  }

  lemma AppendStep(buttons: seq<Button>, title: string, ds: seq<Download>, i: nat, r: seq<Button>, r': seq<Button>)
    requires i < |ds|
    requires r == buttons + FormatButtons(title, ds[..i])
    requires r' == r + if Eligible(ds[i]) then [FormatButton(title, ds[i])] else []
    ensures r' == buttons + FormatButtons(title, ds[..i + 1])
  {
    FormatButtonsPrefix(title, ds, i);
  }

  /** The number of eligible downloads. */
  function CountEligible(ds: seq<Download>): nat {
    if ds == [] then 0 else (if Eligible(ds[0]) then 1 else 0) + CountEligible(ds[1..])
  }

  lemma {:induction false} CountEligibleSnoc(ds: seq<Download>, d: Download)
    ensures CountEligible(ds + [d]) == CountEligible(ds) + (if Eligible(d) then 1 else 0)
  {
    if ds != [] {
      assert (ds + [d])[1..] == ds[1..] + [d];
      CountEligibleSnoc(ds[1..], d);
    }
  }

  /**
   One button per eligible download and no other: every button downloads
   an `http(s)` URL, is never painted the default colour and is the button
   of some eligible download; every eligible download has its button.
   */
  lemma {:induction false} FormatButtonsExact(title: string, ds: seq<Download>)
    ensures |FormatButtons(title, ds)| == CountEligible(ds)
    ensures forall b :: b in FormatButtons(title, ds) ==>
              VideoIds.IsHttpUrl(b.href) && b.color != Colors.DefaultColor
              && exists d :: d in ds && Eligible(d) && b == FormatButton(title, d)
    ensures forall d :: d in ds && Eligible(d) ==> FormatButton(title, d) in FormatButtons(title, ds)
  {
    if ds != [] {
      var init, last := ds[..|ds| - 1], ds[|ds| - 1];
      assert ds == init + [last];
      FormatButtonsExact(title, init);
      CountEligibleSnoc(init, last);
      forall d | d in ds && Eligible(d) ensures FormatButton(title, d) in FormatButtons(title, ds) {
        if d != last {
          assert d in init;
        }
      }
    }
  }

  /** `downloads[0].url` when there are downloads, else the source. */
  function QualityHref(v: VideoData): string {
    if |v.downloads| > 0 then v.downloads[0].url else v.source
  }

  /** The extra button for one YouTube quality. */
  function QualityButton(href: string, quality: string): Button {
    Button(href, "video_" + quality + ".mp4", Colors.ButtonDefault, "Download " + ToUpperAscii(quality))
  }

  /** The four extra YouTube buttons, in the order of `Qualities`, all downloading `href`. */
  function QualityButtons(href: string): (r: seq<Button>)
    ensures |r| == |Qualities|
    ensures forall k :: 0 <= k < |r| ==> r[k] == QualityButton(href, Qualities[k])
  {
    seq(|Qualities|, k requires 0 <= k < |Qualities| => QualityButton(href, Qualities[k]))
  }

  /** The `qualities.forEach` loop: one button per quality, in order. */
  method AppendQualityButtons(buttons: seq<Button>, downloadUrl: string) returns (r: seq<Button>)
    ensures r == buttons + QualityButtons(downloadUrl)
  {
    r := buttons;
    for q := 0 to |Qualities|
      invariant r == buttons + QualityButtons(downloadUrl)[..q]
    {
      r := r + [QualityButton(downloadUrl, Qualities[q])];
    }
  }

  /** The quality buttons read `Download MP3`, `Download 360`, `Download 720`, `Download 1080`. */
  lemma QualityButtonTexts(href: string)
    ensures QualityButtons(href)[0].text == "Download " + "MP3"
    ensures QualityButtons(href)[1].text == "Download " + "360"
    ensures QualityButtons(href)[2].text == "Download " + "720"
    ensures QualityButtons(href)[3].text == "Download " + "1080"
  {
    var b := QualityButtons(href);
    assert b[0].text == "Download " + ToUpperAscii(Qualities[0]);
    assert b[1].text == "Download " + ToUpperAscii(Qualities[1]);
    assert b[2].text == "Download " + ToUpperAscii(Qualities[2]);
    assert b[3].text == "Download " + ToUpperAscii(Qualities[3]);
    UpperMp3();
    UpperOfDigits("360");
    UpperOfDigits("720");
    UpperOfDigits("1080");
  }

  lemma UpperMp3()
    ensures ToUpperAscii("mp3") == "MP3"
  {
    var r := ToUpperAscii("mp3");
    assert r[0] == 'M' && r[1] == 'P' && r[2] == '3';
  }

  lemma UpperOfDigits(s: string)
    requires forall i :: 0 <= i < |s| ==> IsDigit(s[i])
    ensures ToUpperAscii(s) == s
  {
  }

  /** All buttons for a response: none without a `data` envelope. */
  function ExpectedButtons(payload: Option<VideoData>): seq<Button> {
    match payload
    case None => []
    case Some(v) => (if YouTubeId(v).Some? then QualityButtons(QualityHref(v)) else []) + FormatButtons(v.title, v.downloads)
  }

  /** The `downloads.forEach` callback: a button for `download` when its URL is `http(s)`. */
  method AppendFormatButton(buttons: seq<Button>, title: string, download: Download) returns (r: seq<Button>)
    ensures r == buttons + if Eligible(download) then [FormatButton(title, download)] else []
  {
    r := buttons;
    if download.url != "" {
      if VideoIds.IsHttpUrl(download.url) {
        var itag := QueryParams.GetParameterByName("itag", download.url);
        var buttonColor := Colors.ButtonColor(itag);
        var safeFilename := Filename(title, download.formatId);
        r := r + [Button(download.url, safeFilename, buttonColor, FormatLabel(download))];
      }
    }
  }

  /** The `downloads.forEach` loop: one button per eligible download, in order. */
  method AppendFormatButtons(buttons: seq<Button>, title: string, downloads: seq<Download>) returns (r: seq<Button>)
    ensures r == buttons + FormatButtons(title, downloads)
  {
    r := buttons;
    var i := 0;
    while i < |downloads|
      invariant 0 <= i <= |downloads|
      invariant r == buttons + FormatButtons(title, downloads[..i])
    {
      ghost var before := r;
      r := AppendFormatButton(r, title, downloads[i]);
      AppendStep(buttons, title, downloads, i, before, r);
      i := i + 1;
    }
    assert downloads[..i] == downloads;
  }

  /**
   `generateDownloadButtons`: the buttons in page order, and whether the
   "server down" error is shown because no button was produced.
   */
  method GenerateDownloadButtons(payload: Option<VideoData>) returns (buttons: seq<Button>, overloaded: bool)
    ensures buttons == ExpectedButtons(payload)
    ensures overloaded <==> buttons == []
  {
    buttons := [];
    if payload.Some? {
      var v := payload.value;
      var videoId := VideoIds.GetVideoIds(v.source, v.sourceUrl);
      var isYouTube := v.source != "" && (Contains(v.source, "youtube.com") || Contains(v.source, "youtu.be"));
      if isYouTube && videoId.Some? && videoId.value != "" {
        var downloadUrl := if |v.downloads| > 0 then v.downloads[0].url else v.source;
        assert downloadUrl == QualityHref(v);
        buttons := AppendQualityButtons(buttons, downloadUrl);
      }
      ghost var quality := buttons;
      assert quality == if YouTubeId(v).Some? then QualityButtons(QualityHref(v)) else [];
      buttons := AppendFormatButtons(buttons, v.title, v.downloads);
      assert buttons == quality + FormatButtons(v.title, v.downloads);
    }
    overloaded := |buttons| == 0;
  }

  /**
   A YouTube source with an id always gets the four quality buttons first,
   all downloading the same URL in the default button colour, so it is
   never reported as overloaded, even with no downloads.
   */
  lemma YouTubeButtonsFirst(v: VideoData)
    requires YouTubeId(v).Some?
    ensures var b := ExpectedButtons(Some(v));
            && |b| == |Qualities| + CountEligible(v.downloads)
            && (forall k :: 0 <= k < |Qualities| ==>
                  b[k].href == QualityHref(v) && b[k].color == Colors.ButtonDefault
                  && b[k].filename == "video_" + Qualities[k] + ".mp4")
            && b != []
  {
    var q := QualityButtons(QualityHref(v));
    FormatButtonsExact(v.title, v.downloads);
    assert ExpectedButtons(Some(v)) == q + FormatButtons(v.title, v.downloads);
    assert forall k :: 0 <= k < |q| ==> q[k] == QualityButton(QualityHref(v), Qualities[k]);
  }

  /**
   A `youtu.be` source: the id is the pathname without its `/`, exactly when
   that leaves 11 characters.
   */
  lemma ShortLinkId(v: VideoData, path: string, params: seq<(string, string)>)
    requires VideoIds.IsHttpUrl(v.source) && Contains(v.source, "youtu.be")
    requires v.sourceUrl == Some(VideoIds.Url("youtu.be", path, params))
    ensures YouTubeId(v).Some? <==> |path| == 12
    ensures YouTubeId(v).Some? ==> YouTubeId(v).value == path[1..]
  {
    VideoIds.ShortLink(v.source, path, params);
  }

  /**
   `isYouTube` looks at the whole source text, not at its host: a Facebook
   reel whose text mentions `youtube.com` anywhere (in its query, say) is
   treated as YouTube, with the reel number as its id.
   */
  lemma FacebookReelAsYouTube(v: VideoData, host: string, rest: string, params: seq<(string, string)>)
    requires VideoIds.IsHttpUrl(v.source) && Contains(v.source, "youtube.com")
    requires host in VideoIds.FacebookHosts
    requires v.sourceUrl == Some(VideoIds.Url(host, "/reel/" + rest, params))
    requires TakeUntil(rest, {'/'}) != ""
    ensures YouTubeId(v) == Some(TakeUntil(rest, {'/'}))
    ensures Thumbnail(v) == ThumbnailPrefix + TakeUntil(rest, {'/'}) + ThumbnailSuffix
  {
    VideoIds.FacebookReel(v.source, host, rest, params);
  }

  /**
   For instance `https://www.facebook.com/reel/123?x=youtube.com` with no
   downloads gets the YouTube thumbnail for id `123` and the four quality
   buttons.
   */
  lemma FacebookReelAsYouTubeExample(title: string, thumbnail: string)
    ensures var source := "https://www.facebook.com/reel/123?x=" + "youtube.com";
            var v := VideoData(source, Some(VideoIds.Url("www.facebook.com", "/reel/" + "123", [("x", "youtube.com")])),
                               title, thumbnail, []);
            && YouTubeId(v) == Some("123")
            && Thumbnail(v) == ThumbnailPrefix + "123" + ThumbnailSuffix
            && |ExpectedButtons(Some(v))| == |Qualities|
  {
    var source := "https://www.facebook.com/reel/123?x=" + "youtube.com";
    var v := VideoData(source, Some(VideoIds.Url("www.facebook.com", "/reel/" + "123", [("x", "youtube.com")])),
                       title, thumbnail, []);
    ContainsMiddle("https://www.facebook.com/reel/123?x=", "youtube.com", "");
    assert source + "" == source;
    assert StartsWith(source, "https://");
    TakeUntilStops("123", "", {'/'});
    assert "123" + "" == "123";
    FacebookReelAsYouTube(v, "www.facebook.com", "123", [("x", "youtube.com")]);
    YouTubeButtonsFirst(v);
  }

  /**
   The "server down" error is shown exactly when there is no `data`
   envelope, or the source is not YouTube with an id and no download is
   eligible.
   */
  lemma OverloadedIff(payload: Option<VideoData>)
    ensures ExpectedButtons(payload) == [] <==>
              payload.None? || (YouTubeId(payload.value).None? && CountEligible(payload.value.downloads) == 0)
  {
    if payload.Some? {
      FormatButtonsExact(payload.value.title, payload.value.downloads);
    }
  }

  /** `{data: {downloads: []}}` yields no button and the "server down" error. */
  lemma EmptyResponseIsOverloaded(title: string, thumbnail: string)
    ensures ExpectedButtons(Some(VideoData("", None, title, thumbnail, []))) == []
  {
  }
}
