/** One download (`download_video`): fetch the detail page, resolve the media URL, fetch the
    media, check its declared type, stream it to a file and discard a file that is too small.

    The network and the file system are input data: what each request answers, or that it
    raised. Every failure is reported as a value; nothing propagates to the caller. */
module Worker {
  import opened Wrappers
  import opened Text
  import opened Resolver

  /** Files smaller than this many bytes are taken for an error page and deleted. */
  const MinValidSize := 10000

  /** The answer to a request, or the exception it raised. */
  datatype Exchange<T> = Answered(response: T) | Fault

  /** The detail page: its status and its body text (decoding the body can itself raise). */
  datatype PageResponse = PageResponse(status: int, text: Exchange<string>)

  /** What happens when the media body is written to disk. */
  datatype StreamResult =
    | Complete(size: nat)   // the whole body was written; the file has this size
    | Interrupted           // the file was created, then the stream raised
    | NotCreated            // opening the file raised

  datatype MediaResponse = MediaResponse(status: int, contentType: Option<string>, body: StreamResult)

  /** Everything the network answers for one item. */
  datatype Fetch = Fetch(page: Exchange<PageResponse>, media: Exchange<MediaResponse>)

  datatype Failure =
    | PageStatus(code: int)
    | NoMediaUrl
    | MediaStatus(code: int)
    | NotMedia(contentType: string)
    | TooSmall(size: nat)
    | Transport

  /** The outcome of one download and what it left on disk. */
  datatype Report = Report(failure: Option<Failure>, mediaUrl: Option<string>, fileCreated: bool, fileRemoved: bool)
  {
    predicate Succeeded() { failure.None? }
    predicate FileLeft() { fileCreated && !fileRemoved }
  }

  /** `any(t in content_type.lower() for t in ['video', 'octet-stream'])`, with a missing
      header read as the empty string. */
  function ContentTypeAccepted(contentType: Option<string>): bool
  {
    var lowered := ToLower(contentType.GetOr(""));
    IsInfix("video", lowered) || IsInfix("octet-stream", lowered)
  }

  /** The media URL the detail page resolves to, when it is a string that can be requested. */
  function MediaUrl(fetch: Fetch, ex: Extractors): Option<string>
  {
    if fetch.page.Answered? && fetch.page.response.status == 200 && fetch.page.response.text.Answered? then
      match Resolve(fetch.page.response.text.response, ex)
      case Resolved(JString(url), _) => Some(url)
      case _ => None
    else None
  }

  /** The conditions under which a download succeeds, stated as one conjunction. */
  predicate Accepted(fetch: Fetch, ex: Extractors)
  {
    && MediaUrl(fetch, ex).Some?
    && fetch.media.Answered?
    && fetch.media.response.status == 200
    && ContentTypeAccepted(fetch.media.response.contentType)
    && fetch.media.response.body.Complete?
    && fetch.media.response.body.size >= MinValidSize
  }

  function DownloadVideo(fetch: Fetch, ex: Extractors): (r: Report)
    ensures r.Succeeded() <==> Accepted(fetch, ex)
    ensures r.mediaUrl == MediaUrl(fetch, ex)
    ensures r.fileCreated ==> (r.mediaUrl.Some? && fetch.media.Answered? &&
                               fetch.media.response.status == 200 &&
                               ContentTypeAccepted(fetch.media.response.contentType))
    ensures r.fileRemoved <==> r.fileCreated && r.failure.Some? && r.failure.value.TooSmall?
    ensures r.fileRemoved ==> (fetch.media.response.body.Complete? &&
                               fetch.media.response.body.size < MinValidSize)
    ensures r.Succeeded() ==> r.FileLeft()
    ensures r.FileLeft() ==> r.Succeeded() || fetch.media.response.body.Interrupted?
    ensures fetch.page.Answered? && fetch.page.response.status != 200 ==>
              r.failure == Some(PageStatus(fetch.page.response.status))
    ensures fetch.page.Fault? || fetch.media.Fault? ==> !r.Succeeded()
  {
    match fetch.page
    case Fault => Report(Some(Transport), None, false, false)
    case Answered(page) =>
      if page.status != 200 then Report(Some(PageStatus(page.status)), None, false, false)
      else
        match page.text
        case Fault => Report(Some(Transport), None, false, false)
        case Answered(html) =>
          match Resolve(html, ex)
          case Unresolved => Report(Some(NoMediaUrl), None, false, false)
          // a non-string JSON value makes the request itself raise
          case Resolved(JOther(_), _) => Report(Some(Transport), None, false, false)
          case Resolved(JString(url), _) =>
            match fetch.media
            case Fault => Report(Some(Transport), Some(url), false, false)
            case Answered(media) =>
              if media.status != 200 then Report(Some(MediaStatus(media.status)), Some(url), false, false)
              else if !ContentTypeAccepted(media.contentType) then
                Report(Some(NotMedia(media.contentType.GetOr(""))), Some(url), false, false)
              else
                match media.body
                case NotCreated => Report(Some(Transport), Some(url), false, false)
                case Interrupted => Report(Some(Transport), Some(url), true, false)
                case Complete(size) =>
                  if size < MinValidSize then Report(Some(TooSmall(size)), Some(url), true, true)
                  else Report(None, Some(url), true, false)
  }

  /** The content-type check ignores letter case: two types that differ only in case get the
      same answer, and so does a type and its lower-cased form. */
  lemma ContentTypeIgnoresCase(s: string, t: string)
    requires ToLower(s) == ToLower(t)
    ensures ContentTypeAccepted(Some(s)) == ContentTypeAccepted(Some(t))
    ensures ContentTypeAccepted(Some(s)) == ContentTypeAccepted(Some(ToLower(s)))
  {
    ToLowerIdempotent(s);
  }

  /** A media type is accepted whatever its letter case. */
  lemma MixedCaseVideoAccepted()
    ensures ContentTypeAccepted(Some("Video/MP4"))
  {
    assert ToLower("Video/MP4") == "video/mp4";
    assert OccursAt("video", "video/mp4", 0);
  }

  lemma OctetStreamAccepted()
    ensures ContentTypeAccepted(Some("application/octet-stream"))
  {
    assert ToLower("application/octet-stream") == "application/octet-stream";
    assert OccursAt("octet-stream", "application/octet-stream", 12);
  }

  /** An HTML error page, or a response without a `Content-Type`, is rejected. */
  lemma HtmlAndMissingTypeRejected()
    ensures !ContentTypeAccepted(Some("text/html"))
    ensures !ContentTypeAccepted(None)
  {
    var html := ToLower("text/html");
    assert html == "text/html";
    NotInfixWithoutFirstChar("video", html);
    NotInfixWithoutFirstChar("octet-stream", html);
  }

  lemma NotInfixWithoutFirstChar(sub: string, s: string)
    requires sub != [] && sub[0] !in s
    ensures !IsInfix(sub, s)
  {
  }

  /** A complete payload under the size floor is deleted and reported as too small, even
      though every status and type check passed. */
  lemma SmallPayloadIsDeleted(fetch: Fetch, ex: Extractors)
    requires MediaUrl(fetch, ex).Some? && fetch.media.Answered?
    requires fetch.media.response.status == 200
    requires ContentTypeAccepted(fetch.media.response.contentType)
    requires fetch.media.response.body.Complete? && fetch.media.response.body.size < MinValidSize
    ensures DownloadVideo(fetch, ex).failure == Some(TooSmall(fetch.media.response.body.size))
    ensures DownloadVideo(fetch, ex).fileCreated && DownloadVideo(fetch, ex).fileRemoved
  {
  }

  /** A stream that raises after the file was opened leaves the partial file on disk while
      the item is reported as failed. */
  lemma InterruptedStreamLeavesFile(fetch: Fetch, ex: Extractors)
    requires MediaUrl(fetch, ex).Some? && fetch.media.Answered?
    requires fetch.media.response.status == 200
    requires ContentTypeAccepted(fetch.media.response.contentType)
    requires fetch.media.response.body.Interrupted?
    ensures !DownloadVideo(fetch, ex).Succeeded() && DownloadVideo(fetch, ex).FileLeft()
  {
  }
}
