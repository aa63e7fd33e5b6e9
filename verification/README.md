# TikTok profile downloader — a Dafny model of its decision logic

`main.py` downloads every video of a TikTok profile in two stages.

1. **Discovery.** A Chromium page opens the profile. `wait_for_videos` probes a fixed list of CSS
   selectors in order. `get_video_urls` reloads once if the first probe finds nothing, then
   scrolls until the page height stops changing, at most 20 times (`auto_scroll`), and collects the video links.
2. **Download.** `download_all_videos` derives the account name from the profile URL and starts
   one `download_video` task per link, gathering them three at a time. Each task fetches the
   video's detail page and resolves a media URL. Five capture patterns are tried in priority
   order, and the capture of the first pattern that matches is unescaped. A `videoData` JSON
   object is the fallback. The task
   then fetches the media, checks its `Content-Type`, streams it to `video_<index>.mp4`, and
   deletes files under 10000 bytes.

The model treats everything the browser, the network and the file system answer as input data.
What is left is pure decision logic, stated as Dafny functions and methods over sequences.

| module (file) | models |
|---|---|
| `Wrappers` (wrappers.dfy) | `Option` |
| `Text` (text.dfy) | Python's `in`, `str.replace`, `str.split`, ASCII `lower` and the f-string rendering of an `int` |
| `Search` (search.dfy) | first-success search over an ordered list |
| `Scroll` (scroll.dfy) | the `auto_scroll` loop over a sequence of height readings |
| `Discovery` (discovery.dfy) | `wait_for_videos` and the probe / reload / scroll control of `get_video_urls` |
| `Resolver` (resolver.dfy) | pattern priority, unescaping and the `videoData` fallback inside `download_video` |
| `Worker` (worker.dfy) | the status, content-type and size checks of `download_video`, and what it leaves on disk |
| `Scheduler` (scheduler.dfy) | the batch-of-three dispatch and the tally loop of `download_all_videos`, and file naming |
| `Downloader` (downloader.dfy) | the username split and one whole run of `download_all_videos` |

Regular-expression search and `json.loads` are foreign behaviour. They are passed in as
functions: `Resolver.Extractors` holds the search for each pattern, the location of the
`videoData` object, and the parser. The model fixes only the order in which they are consulted
and what is done with their answers.

Some behaviours of `main.py` are easy to misread. The model states each as the code has it:

- `get_video_urls` catches every exception and returns an empty list (main.py:121-123). No
  failure of navigation, probing, reloading or scrolling reaches the caller.
- Item `i`, counted from 1 in discovery order, is saved as `video_<i>.mp4` (main.py:259, 277).
- The link collection does not deduplicate by URL. The script's `new Set` holds freshly built
  objects (main.py:59-68), so the model makes no claim about duplicates.
- Settling needs three consecutive unchanged scrolls (main.py:88-91). A run that ends early
  therefore scrolls at least three times.
- A stream that raises after the file was opened leaves a partial file on disk while the item
  counts as failed (main.py:199-201, 215-217). So the files a run writes and keeps are its
  successes plus such partial files: `Worker.InterruptedStreamLeavesFile`, `Downloader.DownloadAll`.
- The account name is `split('@')[1].split('/')[0]` (main.py:222), so it also stops at a second
  `@`.

## Model

| member | source | states |
|---|---|---|
| Scroll.AutoScroll | main.py:77-96 | At most `max_scrolls` scrolls, and none for a negative bound. The loop stops early only once the last three readings are unchanged, so an early stop needs at least three scrolls. It stops at the first scroll where three unchanged readings end. `last_height` equals the reading taken after the final scroll, or the initial reading when no scroll ran. `stable_count` is the length of the trailing unchanged run, at most 3. The loop computes the same count and bookkeeping as the recursive definition `Scroll.ScrollRun`. |
| Scroll.ContinueStopsSettled | main.py:83-91 | Starting below the threshold, the recursive run either uses every allowed scroll or stops with `stable_count` at 3 after at least three scrolls. |
| Search.FirstIndex | main.py:45-53 | Returns the position of the first element that passes the test, with every earlier element failing. It returns nothing exactly when no element passes. |
| Search.FirstIndexIgnoresLater | main.py:45-52 | Two tests that agree up to the first success give the same answer: elements after the first success are never consulted. |
| Discovery.DefaultScrollCount | main.py:77-91 | With the default bound, `auto_scroll(page)` scrolls exactly 20 times or between 3 and 19 times: it never stops after only one or two scrolls. |
| Discovery.WaitForVideos | main.py:43-53 | The probe is true exactly when some selector of the list appears. |
| Discovery.SelectorsTried | main.py:45-52 | On success, the selectors waited on end at the first one that appears, and all before it timed out. On failure, every selector was waited on. |
| Discovery.ProbeIgnoresUntriedSelectors | main.py:45-49 | Changing the answers for selectors after the first hit changes neither the result nor the number of waits. |
| Discovery.GetVideoUrls | main.py:102-123 | Discovery never raises and reloads at most once. It reloads exactly when navigation and the first probe did not raise and the first probe found nothing. Links are returned only if they are the script's links. No links are returned after a fault in navigation, in the first probe, in the reload or second probe once reached, or in scrolling, nor when both probes find nothing. When no step that is actually reached raises (navigation, the first probe, the reload and second probe when the first probe found nothing, scrolling) and a probe succeeds, the result is the script's links, collected after `auto_scroll` has scrolled as `Scroll.ScrollRun` prescribes with the default bound of 20. |
| Text.IsInfix | main.py:194 | `sub in s` holds exactly when `sub` occurs at some position of `s`. |
| Text.ReplaceAll | main.py:164 | Replacing a non-empty pattern that does not occur leaves the text unchanged. |
| Text.ReplaceAllUndoesEscape | main.py:164 | Replacing an escape sequence by its character undoes escaping that character, when no other character can start the escape sequence. |
| Resolver.Rank | main.py:152-158 | Each pattern has one position in the priority order: video src, playAddr, downloadAddr, link video_src, og:video. |
| Resolver.UnescapeInvertsEscape | main.py:164 | Unescaping a capture (the six-character `\u002F` to `/`, then `&amp;` to `&`) recovers any backslash-free URL from its escaped embedding. |
| Resolver.UnescapeIsSinglePass | main.py:164 | Each replacement is a single pass: `&amp;amp;` unescapes to `&amp;`, not `&`. |
| Resolver.UnescapeKeepsNonEmpty | main.py:164-168 | A non-empty capture never unescapes to the empty, falsy string. |
| Resolver.PatternPhase | main.py:152-166 | Yields nothing exactly when no pattern matches. Otherwise it yields a matching pattern with its unescaped capture, and no higher-priority pattern matches. |
| Resolver.PatternPriority | main.py:161-166 | Of two matching patterns, the lower-priority one never supplies the URL. |
| Resolver.PatternPhaseIgnoresLaterPatterns | main.py:161-166 | Patterns after the winning one are not consulted: changing their answers changes nothing. |
| Resolver.PlayableAddress | main.py:174 | A truthy `playAddr` is preferred. Otherwise a truthy `downloadAddr` is used. Otherwise there is no address. The value is returned as stored. |
| Resolver.Resolve | main.py:151-181 | A truthy pattern result always wins. The JSON fallback is used only when the patterns yield nothing truthy. In that case, if the `videoData` object parses and has a truthy address, the result is that address under its field name. The result is unresolved exactly when neither phase yields a truthy value, which includes a parse failure. |
| Resolver.WellFormedCapturesNeverFallBack | main.py:152-168 | When captures are non-empty, as `[^"]+` guarantees, any matching pattern settles the URL and the fallback is never tried. |
| Resolver.ResolvesEscapedEmbedding | main.py:161-166 | A URL embedded escaped by the highest-priority matching pattern resolves to exactly that URL. |
| Resolver.FallbackIsNotUnescaped | main.py:168-177 | The fallback value is used as parsed: the unescaping of main.py:164 is not applied to it, so a parsed `playAddr` that still holds the six characters `\u002F` is requested with them. |
| Worker.DownloadVideo | main.py:125-217 | Success holds exactly when the page status is 200, a string media URL resolves, the media status is 200, the lowered Content-Type contains `video` or `octet-stream`, and at least 10000 bytes are written. A file is removed exactly when it was written and found too small. A success always leaves its file. A file is left without success only when the stream raised. A non-200 page is reported with its status. A transport fault is never a success. |
| Worker.ContentTypeIgnoresCase | main.py:193-194 | For every content type, the check gives the same answer as for any type equal to it up to letter case, and as for its lower-cased form. |
| Worker.MixedCaseVideoAccepted | main.py:193-194 | `Video/MP4` passes the content-type check: the comparison ignores case. |
| Worker.OctetStreamAccepted | main.py:193-194 | `application/octet-stream` passes the content-type check. |
| Worker.HtmlAndMissingTypeRejected | main.py:193-196 | `text/html` and a missing Content-Type are both rejected. |
| Worker.SmallPayloadIsDeleted | main.py:203-207 | A complete payload under 10000 bytes is deleted and reported as too small, even when every status and type check passed. |
| Worker.InterruptedStreamLeavesFile | main.py:198-217 | A stream that raises after the file is opened fails the item but leaves the partial file. |
| Text.Split | main.py:222 | Split always gives at least one piece. It gives exactly one when the separator is absent. No piece contains the separator. |
| Text.JoinInvertsSplit | main.py:222 | Joining the pieces of a split with the separator gives back the text. |
| Text.SplitAtFirst | main.py:222 | The text before the first separator is the first piece, and the rest is split on. |
| Downloader.Username | main.py:222 | There is no account name (Python raises `IndexError`) exactly when the URL has no `@`. A name never contains `@` or `/`. |
| Downloader.UsernameOfProfileUrl | main.py:222 | `…/@name/…`, `…/@name` and `…/@name@…` all give the account `name`. |
| Text.Decimal | main.py:277 | The rendering is a non-empty string of digits with no leading zero. |
| Text.ParseDecimalInvertsDecimal | main.py:277 | Reading the rendered digits back gives the number. |
| Text.DecimalInjective | main.py:277 | Distinct numbers render as distinct texts. |
| Scheduler.FileNamesDistinct | main.py:277 | Distinct item indices get distinct file names `video_<index>.mp4`. |
| Scheduler.Schedule | main.py:259-287 | The batches cut items `first…first+n-1`, in order, into triples and one final group of 1 to 3 items; there are ⌈n/3⌉ batches. `downloaded` counts the successes, and `downloaded + failed = n`. |
| Scheduler.BatchingUnique | main.py:259-287 | Such a partition into batches is unique. |
| Scheduler.FiveItemsRunInTwoBatches | main.py:259-287 | Five items run as items 1–3, then items 4–5, whatever their outcomes. |
| Scheduler.GatherBatch | main.py:265-273 | Gathering the pending tasks appends them as the next batch. Afterwards the counters cover every item up to the last gathered one, and the progress advance equals `downloaded`. |
| Scheduler.RunBatches | main.py:247-287 | The loop as written (flush three pending tasks before starting the next) produces the same batches as `Schedule`. `downloaded` counts the successes, and `downloaded + failed = n`. The progress bar advances only on successes. There is one cooldown between consecutive batches. At most three tasks are ever outstanding, and three are reached whenever there are at least three items. |
| Downloader.DownloadAll | main.py:219-287 | A URL without `@`, or a raising set-up call (creating the folder, launching the browser, opening the page, closing it), crashes the run. No discovered links ends the run with nothing downloaded. Otherwise all items are batched in 1-based order, and `downloaded + failed` equals the number of links, with `downloaded` counting the successful workers. The files this run writes and keeps are exactly `video_<i>.mp4` for the items `i` whose download left a file: every success, plus partial files from interrupted streams. |

## Left out

- Browser plumbing (main.py:227-237): the Playwright launch, the persistent Chrome profile and the Windows paths are environment. Discovery receives the browser's answers as a `Discovery.PageSession`. Whether `os.makedirs` (main.py:224), the launch, `new_page` or `browser.close()` raises is an input (`Downloader.SetupStep`); why it raises (an account name that is not a valid folder name, a missing Chrome) is not modelled.
- The in-page scripts (main.py:59-68, 84, 87, 98) run in the browser. Their results are inputs: the height readings and the collected links. No URL deduplication is claimed.
- The value `auto_scroll` returns (main.py:98-100) is a link count computed by an in-page script. `get_video_urls` discards it, so it is not modelled.
- Regular-expression semantics, including `re.IGNORECASE` on the capture patterns (main.py:162) and the case-sensitive `videoData` search (main.py:170), and `json.loads` (main.py:173) are foreign library behaviour. They are parameters (`Resolver.Extractors`). Each pattern is searched for by its regular-expression text (`Resolver.Regex`). Decoding JSON's own string escapes (such as `\u002F` inside a JSON string) is part of the abstract parser `parseObject`. A JSON value is a string, or any other value reduced to its truthiness.
- HTTP and file I/O (aiohttp sessions, request headers, the Referer, 8192-byte chunking, `os.path.join`) become their results: statuses, Content-Type, and a stream that completes with a size, raises midway, or never opens the file.
- Downloader.DownloadAll: the account's folder is reused (`exist_ok=True`, main.py:224) and never cleared. Files from earlier runs are not modelled: `files` is what this run writes and keeps, not the folder's contents. An item whose payload is too small overwrites and then deletes a same-named file an earlier run left.
- Worker.DownloadVideo: an exception from `os.path.getsize` or `os.remove` (main.py:204-205) is not modelled. A completed stream is taken to have a readable size and a removable file.
- Timing and the event loop (`wait_for_timeout`, timeouts, `asyncio.create_task`, `gather`, `sleep`) are not modelled. Batches are modelled sequentially, and the cooldown is only counted.
- A selector timeout is a `false` probe answer. Any other exception during discovery is the `Discovery.Step` at which it is raised.
- `str.lower` is modelled for ASCII letters only. Non-ASCII case mappings do not affect the test for `video` or `octet-stream`.
- The header dictionaries (main.py:17-30, 129-139, 184-188), the rich console, the progress descriptions, debug printing and `main()` are output or constant data.
- Discovery.GetVideoUrls: when `auto_scroll` raises partway, the number of scrolls already made is not known; the model reports 0 scrolls.
- Scroll.AutoScroll requires at least `max_scrolls` height readings. The readings are input data, and the loop reads at most one per scroll.
