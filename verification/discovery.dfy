/** Item discovery: the readiness probe of `wait_for_videos` and the control flow of
    `get_video_urls` (navigate, probe, reload once, probe again, scroll, collect links).

    The browser is input data. A probe of a selector is a yes/no answer (the selector
    appeared before its 5-second timeout); any other exception the page raises is
    described by the step at which it is raised. */
module Discovery {
  import opened Wrappers
  import opened Search
  import Scroll

  /** The structural selectors tried, in order, to decide that the profile grid loaded. */
  const VideoSelectors: seq<string> := [
    "div[data-e2e='user-post-item']",
    "div[class*='DivItemContainer']",
    "a[href*='/video/']",
    "div[class*='VideoItem']"
  ]

  /** One link collected from the rendered page. */
  datatype VideoLink = VideoLink(url: string, timestamp: int)

  /** The steps of `get_video_urls` at which the page can raise (anything other than a
      selector timeout, which the probe itself absorbs). */
  datatype Step = Navigate | FirstProbe | Reload | SecondProbe | Scrolling

  /** Everything the browser answers during one discovery run. */
  datatype PageSession = PageSession(
    fault: Option<Step>,                // the step at which the page raises, if it does
    present: string -> bool,            // probe answers after the first load
    presentAfterReload: string -> bool, // probe answers after the reload
    initialHeight: int,                 // `scrollHeight` before the first scroll
    heightAfter: nat -> int,            // `scrollHeight` read after scroll k + 1
    links: Option<seq<VideoLink>>)      // links the in-page script returns; None when it raises

  /** The links returned, the reloads issued and the scrolls `auto_scroll` completed (0 when
      it did not run to its end). */
  datatype Discovered = Discovered(videos: seq<VideoLink>, reloads: nat, scrolls: nat)

  /** The height readings `auto_scroll(page)` can take with its default bound. */
  function Readings(page: PageSession): (hs: seq<int>)
    ensures |hs| == Scroll.DefaultMaxScrolls
    ensures forall k :: 0 <= k < |hs| ==> hs[k] == page.heightAfter(k)
  {
    seq(Scroll.DefaultMaxScrolls, k requires 0 <= k < Scroll.DefaultMaxScrolls => page.heightAfter(k))
  }

  /** How many scrolls `auto_scroll(page)` performs on this page. */
  function ScrollsPerformed(page: PageSession): nat
  {
    Scroll.ScrollRun(page.initialHeight, Readings(page), Scroll.DefaultMaxScrolls).0
  }

  /** With the default bound the page is scrolled 20 times, or fewer only because three
      readings in a row left its height unchanged, which takes at least three scrolls. */
  lemma DefaultScrollCount(page: PageSession)
    ensures ScrollsPerformed(page) == Scroll.DefaultMaxScrolls ||
            Scroll.StableThreshold <= ScrollsPerformed(page) < Scroll.DefaultMaxScrolls
  {
    Scroll.ContinueStopsSettled(Readings(page), Scroll.DefaultMaxScrolls, 0,
                                Scroll.ScrollState(page.initialHeight, 0));
  }

  /** `wait_for_videos`: true when some selector, tried in list order, appears. */
  function WaitForVideos(selectors: seq<string>, present: string -> bool): (found: bool)
    ensures found <==> exists i :: 0 <= i < |selectors| && present(selectors[i])
  {
    FirstIndex(selectors, present).Some?
  }

  /** How many selectors `wait_for_videos` waits on before it returns. */
  function SelectorsTried(selectors: seq<string>, present: string -> bool): (n: nat)
    ensures n <= |selectors|
    ensures WaitForVideos(selectors, present) ==>
              1 <= n && present(selectors[n - 1]) &&
              forall j :: 0 <= j < n - 1 ==> !present(selectors[j])
    ensures !WaitForVideos(selectors, present) ==> n == |selectors|
  {
    match FirstIndex(selectors, present)
    case Some(k) => k + 1
    case None => |selectors|
  }

  /** The probe stops at the first selector that appears: what the page would have
      answered for the selectors after it changes nothing. */
  lemma ProbeIgnoresUntriedSelectors(selectors: seq<string>, present: string -> bool, present': string -> bool)
    requires forall j :: 0 <= j < SelectorsTried(selectors, present) ==>
               present(selectors[j]) == present'(selectors[j])
    ensures WaitForVideos(selectors, present') == WaitForVideos(selectors, present)
    ensures SelectorsTried(selectors, present') == SelectorsTried(selectors, present)
  {
    if FirstIndex(selectors, present).Some? {
      FirstIndexIgnoresLater(selectors, present, present');
    }
  }

  predicate Raises(page: PageSession, step: Step)
  {
    page.fault == Some(step)
  }

  /** The links `extract_video_info` returns: the script's answer, or none if it raised. */
  function ExtractVideoInfo(page: PageSession): seq<VideoLink>
  {
    page.links.GetOr([])
  }

  /** `get_video_urls`: never raises; reloads at most once, and only when the first probe
      found nothing; returns no links when neither probe succeeds. */
  function GetVideoUrls(page: PageSession): (r: Discovered)
    ensures r.reloads <= 1
    ensures r.scrolls <= Scroll.DefaultMaxScrolls
    ensures r.videos != [] ==> r.scrolls == ScrollsPerformed(page)
    ensures r.reloads == 1 <==>
              !Raises(page, Navigate) && !Raises(page, FirstProbe) &&
              !WaitForVideos(VideoSelectors, page.present)
    ensures r.videos == [] || Some(r.videos) == page.links
    ensures Raises(page, Navigate) || Raises(page, FirstProbe) ==> r.videos == []
    ensures r.reloads == 1 && (Raises(page, Reload) || Raises(page, SecondProbe)) ==> r.videos == []
    ensures (!WaitForVideos(VideoSelectors, page.present) &&
             !WaitForVideos(VideoSelectors, page.presentAfterReload)) ==> r.videos == []
    ensures r.videos != [] ==> !Raises(page, Scrolling)
    ensures !Raises(page, Navigate) && !Raises(page, FirstProbe) && !Raises(page, Scrolling) &&
            (WaitForVideos(VideoSelectors, page.present) ||
             (!Raises(page, Reload) && !Raises(page, SecondProbe) &&
              WaitForVideos(VideoSelectors, page.presentAfterReload))) ==>
              r.videos == ExtractVideoInfo(page) && r.scrolls == ScrollsPerformed(page)
  {
    if Raises(page, Navigate) || Raises(page, FirstProbe) then Discovered([], 0, 0)
    else if !WaitForVideos(VideoSelectors, page.present) then
      if Raises(page, Reload) || Raises(page, SecondProbe) then Discovered([], 1, 0)
      else if !WaitForVideos(VideoSelectors, page.presentAfterReload) then Discovered([], 1, 0)
      else ScrollAndCollect(page, 1)
    else ScrollAndCollect(page, 0)
  }

  /** The tail of `get_video_urls` once a probe succeeded: scroll, then collect the links. */
  function ScrollAndCollect(page: PageSession, reloads: nat): Discovered
  {
    if Raises(page, Scrolling) then Discovered([], reloads, 0)
    else Discovered(ExtractVideoInfo(page), reloads, ScrollsPerformed(page))
  }
}
