/** Asset-URL resolution inside `download_video`: five capture patterns tried in a fixed
    priority order, the two-step unescaping of a capture, and the `videoData` JSON fallback.

    Regular-expression search and `json.loads` are foreign behaviour; they are supplied as
    functions (`Extractors`). Only the order in which they are consulted and what is done
    with their answers is modelled. */
module Resolver {
  import opened Wrappers
  import opened Text
  import opened Search

  /** The capture patterns, named after the embedding each one recognises. */
  datatype Pattern = VideoSrc | PlayAddr | DownloadAddr | LinkVideoSrc | OgVideo

  /** The priority order: earlier patterns win. */
  const UrlPatterns: seq<Pattern> := [VideoSrc, PlayAddr, DownloadAddr, LinkVideoSrc, OgVideo]

  /** Position of a pattern in the priority order. */
  function Rank(p: Pattern): (k: nat)
    ensures k < |UrlPatterns| && UrlPatterns[k] == p
  {
    match p
    case VideoSrc => 0
    case PlayAddr => 1
    case DownloadAddr => 2
    case LinkVideoSrc => 3
    case OgVideo => 4
  }

  /** The regular expression each pattern stands for; group 1 captures the URL. */
  function Regex(p: Pattern): string
  {
    match p
    case VideoSrc => "<video[^>]+src=\"([^\"]+)\""
    case PlayAddr => "\"playAddr\":\"([^\"]+)\""
    case DownloadAddr => "\"downloadAddr\":\"([^\"]+)\""
    case LinkVideoSrc => "<link[^>]+?rel=\"video_src\"[^>]+?href=\"([^\"]+)\""
    case OgVideo => "property=\"og:video\"\\s+content=\"([^\"]+)\""
  }

  /** A JSON value as the fallback sees it: a string, or any other value reduced to its
      Python truthiness. */
  datatype Json = JString(text: string) | JOther(truthy: bool)

  /** Python truthiness of a field looked up with `dict.get` (absent is `None`). */
  function Truthy(v: Option<Json>): bool
  {
    match v
    case None => false
    case Some(JString(s)) => s != ""
    case Some(JOther(t)) => t
  }

  function Field(obj: map<string, Json>, key: string): Option<Json>
  {
    if key in obj then Some(obj[key]) else None
  }

  /** The foreign searches and parser, as functions of the page text. */
  datatype Extractors = Extractors(
    search: (string, string) -> Option<string>,    // group 1 of the first case-insensitive match
                                                    // of a regular expression in a text
    locateVideoData: string -> Option<string>,      // the `{...}` after `videoData":` / `videoData':`
    parseObject: string -> Option<map<string, Json>>) // `json.loads`; None when it raises

  const EscapedSlash: string := "\\u002F"
  const EntityAmp: string := "&amp;"

  /** The unescaping applied to a pattern capture: the six-character text `\u002F` becomes
      `/`, then `&amp;` becomes `&`, each in a single pass. */
  function Unescape(capture: string): string
  {
    ReplaceAll(ReplaceAll(capture, EscapedSlash, "/"), EntityAmp, "&")
  }

  /** How a page embeds a URL in script text: `&` as `&amp;`, then `/` as `\u002F`. */
  function EscapeForPage(url: string): string
  {
    EscapeChar(EscapeChar(url, '&', EntityAmp), '/', EscapedSlash)
  }

  /** Unescaping recovers any URL without a backslash from its escaped embedding. */
  lemma UnescapeInvertsEscape(url: string)
    requires '\\' !in url
    ensures Unescape(EscapeForPage(url)) == url
  {
    var amped := EscapeChar(url, '&', EntityAmp);
    NoBackslashSurvivesAmp(url);
    ReplaceAllUndoesEscape(amped, '/', EscapedSlash);
    ReplaceAllUndoesEscape(url, '&', EntityAmp);
  }

  lemma {:induction false} NoBackslashSurvivesAmp(url: string)
    requires '\\' !in url
    ensures '\\' !in EscapeChar(url, '&', EntityAmp)
  {
    if url != [] {
      NoBackslashSurvivesAmp(url[1..]);
    }
  }

  /** Each replacement is one pass: a doubly escaped ampersand keeps one level. */
  lemma UnescapeIsSinglePass()
    ensures Unescape("&amp;amp;") == "&amp;"
  {
    var s := "&amp;amp;";
    assert ReplaceAll(s, EscapedSlash, "/") == s by {
      assert !IsInfix(EscapedSlash, s);
    }
    assert EntityAmp <= s;
    var t := s[|EntityAmp|..];
    assert t == "amp;";
    assert ReplaceAll(t, EntityAmp, "&") == t by {
      assert !IsInfix(EntityAmp, t);
    }
  }

  /** A non-empty capture never unescapes to the empty (falsy) string. */
  lemma UnescapeKeepsNonEmpty(capture: string)
    requires capture != []
    ensures Unescape(capture) != []
  {
    ReplaceAllKeepsNonEmpty(capture, EscapedSlash, "/");
    ReplaceAllKeepsNonEmpty(ReplaceAll(capture, EscapedSlash, "/"), EntityAmp, "&");
  }

  /** What the search for pattern `p` captures in the page: `re.search(Regex(p), html,
      re.IGNORECASE).group(1)`, or nothing. */
  function Capture(ex: Extractors, html: string, p: Pattern): Option<string>
  {
    ex.search(Regex(p), html)
  }

  predicate Matches(ex: Extractors, html: string, p: Pattern)
  {
    Capture(ex, html, p).Some?
  }

  /** The pattern loop: the first pattern in priority order that matches, with its
      unescaped capture; later patterns are not consulted. */
  function PatternPhase(html: string, ex: Extractors): (r: Option<(Pattern, string)>)
    ensures r.None? <==> forall p: Pattern :: !Matches(ex, html, p)
    ensures r.Some? ==> (Matches(ex, html, r.value.0) &&
                         r.value.1 == Unescape(Capture(ex, html, r.value.0).value))
    ensures r.Some? ==> forall p: Pattern :: Rank(p) < Rank(r.value.0) ==> !Matches(ex, html, p)
  {
    var matching := p => Matches(ex, html, p);
    match FirstIndex(UrlPatterns, matching)
    case None =>
      assert forall p: Pattern :: !Matches(ex, html, p) by {
        forall p: Pattern ensures !Matches(ex, html, p) {
          assert !matching(UrlPatterns[Rank(p)]);
        }
      }
      None
    case Some(i) =>
      var p := UrlPatterns[i];
      assert Rank(p) == i;
      assert forall q: Pattern :: Rank(q) < i ==> !Matches(ex, html, UrlPatterns[Rank(q)]);
      Some((p, Unescape(Capture(ex, html, p).value)))
  }

  /** Of two matching patterns, the later one never supplies the URL. */
  lemma PatternPriority(html: string, ex: Extractors, p: Pattern, q: Pattern)
    requires Matches(ex, html, p) && Matches(ex, html, q) && Rank(p) < Rank(q)
    ensures PatternPhase(html, ex).Some? && PatternPhase(html, ex).value.0 != q
  {
  }

  /** The patterns ranked after the winning one are never consulted: changing what they
      would match changes nothing. */
  lemma PatternPhaseIgnoresLaterPatterns(html: string, ex: Extractors, ex': Extractors)
    requires PatternPhase(html, ex).Some?
    requires forall p: Pattern :: Rank(p) <= Rank(PatternPhase(html, ex).value.0) ==>
               Capture(ex', html, p) == Capture(ex, html, p)
    ensures PatternPhase(html, ex') == PatternPhase(html, ex)
  {
  }

  /** The `videoData` object, when it is found and parses; a parse failure is swallowed. */
  function VideoData(html: string, ex: Extractors): Option<map<string, Json>>
  {
    match ex.locateVideoData(html)
    case None => None
    case Some(blob) => ex.parseObject(blob)
  }

  /** `video_data.get('playAddr') or video_data.get('downloadAddr')`, kept only when truthy:
      the field name and its raw (not unescaped) value. */
  function PlayableAddress(obj: map<string, Json>): (r: Option<(string, Json)>)
    ensures r.Some? ==> r.value.0 in obj && obj[r.value.0] == r.value.1 && Truthy(Some(r.value.1))
    ensures Truthy(Field(obj, "playAddr")) ==> r == Some(("playAddr", obj["playAddr"]))
    ensures !Truthy(Field(obj, "playAddr")) && Truthy(Field(obj, "downloadAddr")) ==>
              r == Some(("downloadAddr", obj["downloadAddr"]))
    ensures r.None? <==> !Truthy(Field(obj, "playAddr")) && !Truthy(Field(obj, "downloadAddr"))
  {
    var play := Field(obj, "playAddr");
    if Truthy(play) then Some(("playAddr", play.value))
    else
      var download := Field(obj, "downloadAddr");
      if Truthy(download) then Some(("downloadAddr", download.value)) else None
  }

  datatype Via = ByPattern(pattern: Pattern) | ByVideoData(field: string)

  datatype Resolution = Resolved(url: Json, via: Via) | Unresolved

  /** The pattern phase produced a usable (truthy) URL. */
  predicate PatternSucceeds(html: string, ex: Extractors)
  {
    PatternPhase(html, ex).Some? && PatternPhase(html, ex).value.1 != ""
  }

  /** The whole resolution: patterns first, the JSON fallback only when they yield nothing
      truthy, failure when neither does. */
  function Resolve(html: string, ex: Extractors): (r: Resolution)
    ensures r.Resolved? ==> Truthy(Some(r.url))
    ensures PatternSucceeds(html, ex) ==>
              r == Resolved(JString(PatternPhase(html, ex).value.1), ByPattern(PatternPhase(html, ex).value.0))
    ensures r.Resolved? && r.via.ByVideoData? ==>
              !PatternSucceeds(html, ex) && VideoData(html, ex).Some? &&
              PlayableAddress(VideoData(html, ex).value) == Some((r.via.field, r.url))
    ensures !PatternSucceeds(html, ex) && VideoData(html, ex).Some? &&
            PlayableAddress(VideoData(html, ex).value).Some? ==>
              var (field, value) := PlayableAddress(VideoData(html, ex).value).value;
              r == Resolved(value, ByVideoData(field))
    ensures r.Unresolved? <==>
              !PatternSucceeds(html, ex) &&
              (VideoData(html, ex).None? || PlayableAddress(VideoData(html, ex).value).None?)
  {
    if PatternSucceeds(html, ex) then
      var (p, url) := PatternPhase(html, ex).value;
      Resolved(JString(url), ByPattern(p))
    else
      match VideoData(html, ex)
      case None => Unresolved
      case Some(obj) =>
        match PlayableAddress(obj)
        case None => Unresolved
        case Some((field, value)) => Resolved(value, ByVideoData(field))
  }

  /** Every real pattern captures at least one character (`[^"]+`); with such a search, a
      matching pattern always settles the resolution and the fallback is never tried. */
  lemma WellFormedCapturesNeverFallBack(html: string, ex: Extractors, p: Pattern)
    requires forall q: Pattern :: Capture(ex, html, q) != Some("")
    requires Matches(ex, html, p)
    ensures Resolve(html, ex).Resolved? && Resolve(html, ex).via.ByPattern?
  {
    var w := PatternPhase(html, ex).value.0;
    UnescapeKeepsNonEmpty(Capture(ex, html, w).value);
  }

  /** A URL embedded in escaped form by the highest-ranked matching pattern is what the
      resolution returns, exactly. */
  lemma ResolvesEscapedEmbedding(html: string, ex: Extractors, p: Pattern, url: string)
    requires url != [] && '\\' !in url
    requires Capture(ex, html, p) == Some(EscapeForPage(url))
    requires forall q: Pattern :: Rank(q) < Rank(p) ==> !Matches(ex, html, q)
    ensures Resolve(html, ex) == Resolved(JString(url), ByPattern(p))
  {
    UnescapeInvertsEscape(url);
  }

  /** The fallback value is used as parsed: the unescaping applied to pattern captures is not
      applied to it, so text the parser leaves in `playAddr` reaches the request unchanged. */
  lemma FallbackIsNotUnescaped()
    ensures var ex := Extractors((p, h) => None, h => Some("{}"),
                                 b => Some(map["playAddr" := JString("a\\u002Fb")]));
            Resolve("", ex) == Resolved(JString("a\\u002Fb"), ByVideoData("playAddr"))
  {
    var ex := Extractors((p, h) => None, h => Some("{}"),
                         b => Some(map["playAddr" := JString("a\\u002Fb")]));
    assert PatternPhase("", ex).None?;
  }
}
