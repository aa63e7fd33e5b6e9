/** `download_all_videos`: derive the account name from the profile URL, discover the
    items, then download them in batches and count the outcomes. */
module Downloader {
  import opened Wrappers
  import opened Text
  import opened Resolver
  import opened Discovery
  import opened Worker
  import opened Scheduler

  /** `profile_url.split('@')[1].split('/')[0]`: the text after the first `@`, up to the
      next `/` or `@`. Python raises `IndexError` when there is no `@`; that is `None`. */
  function Username(profileUrl: string): (r: Option<string>)
    ensures r.None? <==> '@' !in profileUrl
    ensures r.Some? ==> '@' !in r.value && '/' !in r.value
  {
    var parts := Split(profileUrl, '@');
    if |parts| < 2 then None else Some(Split(parts[1], '/')[0])
  }

  /** A profile URL `…/@name/…` names the account `name`; so does `…/@name` at the end, and
      `…/@name@…`, since the text is also cut at a second `@`. */
  lemma UsernameOfProfileUrl(prefix: string, name: string, rest: string)
    requires '@' !in prefix && '@' !in name && '/' !in name
    requires rest == [] || rest[0] == '/' || rest[0] == '@'
    ensures Username(prefix + "@" + name + rest) == Some(name)
  {
    var url := prefix + "@" + name + rest;
    assert url == prefix + ['@'] + (name + rest);
    SplitAtFirst(prefix, name + rest, '@');
    AccountPiece(name, rest);
  }

  /** The piece after the first `@` is `name`, or `name` followed by `/` and more. */
  lemma AccountPiece(name: string, rest: string)
    requires '@' !in name && '/' !in name
    requires rest == [] || rest[0] == '/' || rest[0] == '@'
    ensures Split(Split(name + rest, '@')[0], '/')[0] == name
  {
    SplitHead(name, rest, '@');
    if rest != [] && rest[0] == '/' {
      PieceAfterSlash(name, rest);
    } else {
      PieceAtEnd(rest);
      assert name + Split(rest, '@')[0] == name;
      SplitWithoutSeparator(name, '/');
    }
  }

  lemma PieceAfterSlash(name: string, rest: string)
    requires '/' !in name && rest != [] && rest[0] == '/'
    ensures Split(name + Split(rest, '@')[0], '/')[0] == name
  {
    var w := Split(rest[1..], '@')[0];
    assert ['/'] + rest[1..] == rest;
    SplitHead(['/'], rest[1..], '@');
    assert name + Split(rest, '@')[0] == name + ['/'] + w;
    SplitAtFirst(name, w, '/');
  }

  lemma PieceAtEnd(rest: string)
    requires rest == [] || rest[0] == '@'
    ensures Split(rest, '@')[0] == []
  {
    if rest != [] {
      assert rest == [] + ['@'] + rest[1..];
      SplitAtFirst([], rest[1..], '@');
    }
  }

  /** The set-up calls around discovery that nothing catches: creating the account's
      folder, launching the browser, opening its page, and closing the browser. */
  datatype SetupStep = MakeFolder | Launch | NewPage | Close

  /** How a run ends. */
  datatype RunEnd =
    | Crashed                      // the URL has no `@`, or a set-up call raised; nothing catches it
    | NoVideos(username: string)   // discovery found nothing; nothing is downloaded
    | Completed(username: string, batches: seq<seq<nat>>, downloaded: nat, failed: nat,
                files: set<string>)  // the `video_<index>.mp4` files this run writes and keeps

  /** The worker outcomes of the discovered items, in item order. */
  function Outcomes(count: nat, fetch: nat -> Fetch, ex: Extractors): (rs: seq<bool>)
    ensures |rs| == count
    ensures forall k :: 0 <= k < count ==> rs[k] == DownloadVideo(fetch(k + 1), ex).Succeeded()
  {
    seq(count, k requires 0 <= k < count => DownloadVideo(fetch(k + 1), ex).Succeeded())
  }

  /** One run. `setupFault` is the set-up call that raises, if one does; `page` is what the
      browser answers during discovery, `fetch(i)` what the network answers for item `i`,
      `ex` the regular-expression and JSON behaviour. */
  method DownloadAll(profileUrl: string, setupFault: Option<SetupStep>, page: PageSession,
                     fetch: nat -> Fetch, ex: Extractors)
    returns (r: RunEnd)
    ensures r.Crashed? <==> Username(profileUrl).None? || setupFault.Some?
    ensures r.NoVideos? <==>
              Username(profileUrl).Some? && setupFault.None? && GetVideoUrls(page).videos == []
    ensures !r.Crashed? ==> r.username == Username(profileUrl).value
    ensures r.Completed? ==>
              var n := |GetVideoUrls(page).videos|;
              && n > 0
              && r.downloaded + r.failed == n
              && r.downloaded == CountTrue(Outcomes(n, fetch, ex))
              && IsBatching(r.batches, Range(1, n))
              && (forall i: nat :: FileName(i) in r.files <==>
                    1 <= i <= n && DownloadVideo(fetch(i), ex).FileLeft())
              && (forall f :: f in r.files ==> exists i: nat :: 1 <= i <= n && f == FileName(i))
  {
    var name := Username(profileUrl);
    if name.None? || setupFault.Some? {
      return Crashed;
    }
    var found := GetVideoUrls(page);
    if found.videos == [] {
      return NoVideos(name.value);
    }
    var results := Outcomes(|found.videos|, fetch, ex);
    var batches, downloaded, failed, advanced, cooldowns, peak := RunBatches(results);
    var n := |found.videos|;
    var files := set i: nat | 1 <= i <= n && DownloadVideo(fetch(i), ex).FileLeft() :: FileName(i);
    forall i: nat | FileName(i) in files
      ensures 1 <= i <= n && DownloadVideo(fetch(i), ex).FileLeft()
    {
      var j: nat :| 1 <= j <= n && DownloadVideo(fetch(j), ex).FileLeft() && FileName(j) == FileName(i);
      if i != j {
        FileNamesDistinct(i, j);
      }
    }
    return Completed(name.value, batches, downloaded, failed, files);
  }
}
