/** The short-video (BV) download path: the view lookup of the cid and title, the stream
    choice, the file name, the history line and the shared download-and-merge stage. */
module DownBv {
  import opened Wrappers
  import opened Numbers
  import opened Resolution
  import opened Tracks
  import opened RefreshCookie
  import opened World
  import opened DownBangumi

  /** The context `down_file_url` puts on a request that could not be sent. */
  const StreamSendFailed: string := "Failed to download stream"
  /** The context on a failed view lookup in `bv_down_main`. */
  const CidTitleFailed: string := "Failed to get bv cid title"
  /** The context on a failed play-url request in `bv_down_main`. */
  const PlayUrlFailed: string := "Failed to get bv play url"
  const NoTitle: string := "no title"
  const NoPic: string := "no pic"

  /** The `BV` record: the id asked for, the cid as text ("" when missing) and the sanitised title. */
  datatype Bv = Bv(bvId: string, cid: string, title: string)

  /** `get_bv_cid_title` once the view response is parsed. */
  function GetBvCidTitle(bvId: string, view: BvView): (b: Bv)
    ensures b.bvId == bvId
    ensures b.cid == "" <==> AsI64(view.cid).None?
    ensures forall k :: 0 <= k < |b.title| ==> !IsForbidden(b.title[k])
    ensures view.title.Some? ==> b.title == RemovePunctuation(view.title.value)
    ensures view.title.None? ==> b.title == NoTitle
  {
    assert forall k :: 0 <= k < |NoTitle| ==> !IsForbidden(NoTitle[k]);
    RemovePunctuationKeepsClean(NoTitle);
    var cid := if AsI64(view.cid).Some? then ToDecimal(AsI64(view.cid).value) else "";
    Bv(bvId, cid, RemovePunctuation(view.title.GetOr(NoTitle)))
  }

  /** The cid put in the play-url query reads back as the number in the view response. */
  lemma BvCidRoundTrip(bvId: string, view: BvView)
    requires AsI64(view.cid).Some?
    ensures ParseI64(GetBvCidTitle(bvId, view).cid) == AsI64(view.cid)
  {
    ParseToDecimal(AsI64(view.cid).value, -TwoTo63, TwoTo63);
  }

  /** `get_bv_url`: the last highest-bandwidth video stream of the requested code, else the
      stream at position 1; the last audio stream with the largest `bandwidth`. */
  function GetBvUrl(m: Manifest, rsl: string): (r: Result<Selection>)
    requires ParseI32(Qn(rsl)).Some?
    ensures r == SelectTracks(m, ParseI32(Qn(rsl)).value, 1, ByBandwidth)
    ensures r.Ok? && !HasMatch(m.video.value, ParseI32(Qn(rsl)).value) ==>
      r.value.videoUrl == VideoUrlAt(m.video.value, 1) && r.value.qn == VideoIdAt(m.video.value, 1)
  {
    SelectTracks(m, ParseI32(Qn(rsl)).value, 1, ByBandwidth)
  }

  /** With one video stream that is not of the requested code, the fallback position is past
      the end: the chosen video URL is empty and the code is 0. */
  lemma SingleStreamFallbackIsEmpty(m: Manifest, rsl: string)
    requires ParseI32(Qn(rsl)).Some?
    requires GetBvUrl(m, rsl).Ok? && |m.video.value| == 1
    requires AsI64(m.video.value[0].id) != ParseI32(Qn(rsl))
    ensures GetBvUrl(m, rsl).value.videoUrl == "" && GetBvUrl(m, rsl).value.qn == 0
  {
    assert !HasMatch(m.video.value, ParseI32(Qn(rsl)).value);
  }

  /** What `down_file_bv_` goes on with: the choice, or empty URLs and code 0 when it failed. */
  function BvSelection(m: Manifest, rsl: string): (s: Selection)
    requires ParseI32(Qn(rsl)).Some?
    ensures GetBvUrl(m, rsl).Ok? ==> s == GetBvUrl(m, rsl).value
    ensures GetBvUrl(m, rsl).Err? ==> s == Selection("", "", 0)
  {
    match GetBvUrl(m, rsl)
    case Ok(sel) => sel
    case Err(_) => Selection("", "", 0)
  }

  /** A failed choice is not an error: the file is still named, with an empty quality label. */
  lemma FailedChoiceNamesWithoutQuality(m: Manifest, rsl: string, title: string)
    requires ParseI32(Qn(rsl)).Some?
    requires GetBvUrl(m, rsl).Err?
    ensures FileName(title, BvSelection(m, rsl).qn) == title + " "
  {
    assert ToDecimal(0) == "0";
    assert "0" !in Codes;
  }

  /** What `down_file_bv_` leaves on the disk and returns: the save directory and the history
      line, then `DownloadEffect` with the (possibly empty) choice. */
  function DownFileBvEffect(s: DiskState, env: Env, m: Manifest, title: string, rsl: string, bvId: string, save: string)
    : (out: Step<()>)
    requires ParseI32(Qn(rsl)).Some?
    ensures Extends(s, out.state)
    ensures |out.state.history| == |s.history| + 1
  {
    var sel := BvSelection(m, rsl);
    var name := FileName(title, sel.qn);
    var d := DownloadEffect(s.files, s.trace, env, StreamSendFailed, sel.videoUrl, sel.audioUrl, name, save);
    DownloadFollowsPlan(s.files, s.trace, env, StreamSendFailed, sel.videoUrl, sel.audioUrl, name, save);
    Step(DiskState(d.files, s.dirs + {save}, s.history + [HistoryLine(env.now, bvId, name)], d.trace), d.result)
  }

  /** `down_file_bv_`: choose the streams (a failure gives empty URLs), make the save
      directory, log the history line, then skip or download and merge. */
  method DownFileBv(disk: Disk, env: Env, m: Manifest, title: string, rsl: string, bvId: string, save: string)
    returns (r: Result<()>)
    requires ParseI32(Qn(rsl)).Some?
    modifies disk
    ensures Step(disk.Snapshot(), r) == DownFileBvEffect(old(disk.Snapshot()), env, m, title, rsl, bvId, save)
    ensures var sel := BvSelection(m, rsl);
      var name := FileName(title, sel.qn);
      && disk.history == old(disk.history) + [HistoryLine(env.now, bvId, name)]
      && disk.dirs == old(disk.dirs) + {save}
      && Outcome(disk.files, disk.trace, r) ==
         DownloadEffect(old(disk.files), old(disk.trace), env, StreamSendFailed, sel.videoUrl, sel.audioUrl, name, save)
  {
    var sel := BvSelection(m, rsl);
    disk.EnsureDir(save);
    var name := FileName(title, sel.qn);
    disk.AppendHistory(HistoryLine(env.now, bvId, name));
    r := DownloadAndMerge(disk, env, StreamSendFailed, sel.videoUrl, sel.audioUrl, name, save);
  }

  /** What `bv_down_main` leaves on the disk and returns: a cookie, view or play-url failure
      before anything is written; otherwise `down_file_bv_`, and the title on success. */
  function BvDownMainEffect(s: DiskState, env: Env, bvId: string, rsl: string, save: string): (out: Step<string>)
    requires ParseI32(Qn(rsl)).Some?
    ensures Extends(s, out.state)
    ensures out.result.Ok? ==> |out.state.history| == |s.history| + 1
  {
    match ReadCookieOrNot(env.cookieFile)
    case Err(e) => Step(s, Err(e))
    case Ok(_) =>
      match env.view(bvId)
      case Err(_) => Step(s, Err(CidTitleFailed))
      case Ok(view) =>
        var bv := GetBvCidTitle(bvId, view);
        match env.bvPlayurl(bvId, bv.cid)
        case Err(_) => Step(s, Err(PlayUrlFailed))
        case Ok(m) =>
          var f := DownFileBvEffect(s, env, m, bv.title, rsl, bvId, save);
          Step(f.state, if f.result.Ok? then Ok(bv.title) else Err(f.result.error))
  }

  /** `bv_down_main` (and `down_main`, which only forwards it): read the cookie, look up the
      cid and title, fetch the play-url response, download; the title on success. A failed
      lookup or play-url request ends it before anything is written. */
  method BvDownMain(disk: Disk, env: Env, bvId: string, rsl: string, save: string) returns (r: Result<string>)
    requires ParseI32(Qn(rsl)).Some?
    requires CookieUsable(env.cookieFile)
    modifies disk
    ensures Step(disk.Snapshot(), r) == BvDownMainEffect(old(disk.Snapshot()), env, bvId, rsl, save)
    ensures ReadCookieOrNot(env.cookieFile).Err? ==>
      r == Err(ReadCookieOrNot(env.cookieFile).error) && disk.files == old(disk.files) &&
      disk.dirs == old(disk.dirs) && disk.history == old(disk.history) && disk.trace == old(disk.trace)
    ensures ReadCookieOrNot(env.cookieFile).Ok? && env.view(bvId).Err? ==>
      r == Err(CidTitleFailed) && disk.files == old(disk.files) &&
      disk.dirs == old(disk.dirs) && disk.history == old(disk.history) && disk.trace == old(disk.trace)
    ensures ReadCookieOrNot(env.cookieFile).Ok? && env.view(bvId).Ok? ==>
      var bv := GetBvCidTitle(bvId, env.view(bvId).value);
      var play := env.bvPlayurl(bvId, bv.cid);
      && (play.Err? ==>
            r == Err(PlayUrlFailed) && disk.files == old(disk.files) &&
            disk.dirs == old(disk.dirs) && disk.history == old(disk.history) && disk.trace == old(disk.trace))
      && (play.Ok? ==>
            var sel := BvSelection(play.value, rsl);
            var name := FileName(bv.title, sel.qn);
            var out := DownloadEffect(old(disk.files), old(disk.trace), env, StreamSendFailed, sel.videoUrl, sel.audioUrl, name, save);
            && disk.history == old(disk.history) + [HistoryLine(env.now, bvId, name)]
            && disk.dirs == old(disk.dirs) + {save}
            && disk.files == out.files && disk.trace == out.trace
            && (r.Ok? <==> out.result.Ok?)
            && (r.Ok? ==> r.value == bv.title)
            && (r.Err? ==> r.error == out.result.error))
  {
    var cookie := ReadCookieOrNot(env.cookieFile);
    if cookie.Err? {
      return Err(cookie.error);
    }
    // Every request goes out with `CreateHeaders` of the cookie, which `CookieUsable` allows;
    // the answers in `env` are the ones sent with them.
    var view := env.view(bvId);
    if view.Err? {
      return Err(CidTitleFailed);
    }
    var bv := GetBvCidTitle(bvId, view.value);
    var play := env.bvPlayurl(bv.bvId, bv.cid);
    if play.Err? {
      return Err(PlayUrlFailed);
    }
    var done := DownFileBv(disk, env, play.value, bv.title, rsl, bv.bvId, save);
    if done.Err? {
      return Err(done.error);
    }
    r := Ok(bv.title);
  }

  /** `bv_title`: the sanitised title ("no title" when missing) and the cover URL ("no pic"
      when missing). A failed request is returned as it is, without a context message. */
  function BvTitle(env: Env, bvId: string): (r: Result<(string, string)>)
    requires CookieUsable(env.cookieFile)
    ensures ReadCookieOrNot(env.cookieFile).Err? ==> r == Err(ReadCookieOrNot(env.cookieFile).error)
    ensures ReadCookieOrNot(env.cookieFile).Ok? ==> (r.Err? <==> env.view(bvId).Err?)
    ensures ReadCookieOrNot(env.cookieFile).Ok? && env.view(bvId).Err? ==> r == Err(env.view(bvId).error)
    ensures r.Ok? && env.view(bvId).value.title.Some? ==> r.value.0 == RemovePunctuation(env.view(bvId).value.title.value)
    ensures r.Ok? && env.view(bvId).value.title.None? ==> r.value.0 == NoTitle
    ensures r.Ok? ==> forall k :: 0 <= k < |r.value.0| ==> !IsForbidden(r.value.0[k])
    ensures r.Ok? && env.view(bvId).value.pic.None? ==> r.value.1 == NoPic
    ensures r.Ok? && env.view(bvId).value.pic.Some? ==> r.value.1 == env.view(bvId).value.pic.value
  {
    // The request goes out with `CreateHeaders` of the cookie, which `CookieUsable` allows.
    var _ :- ReadCookieOrNot(env.cookieFile);
    var view :- env.view(bvId);
    assert forall k :: 0 <= k < |NoTitle| ==> !IsForbidden(NoTitle[k]);
    RemovePunctuationKeepsClean(NoTitle);
    Ok((RemovePunctuation(view.title.GetOr(NoTitle)), view.pic.GetOr(NoPic)))
  }

  /** The title shown for a link is the title its downloaded file is named after. */
  lemma ShownTitleIsFileTitle(env: Env, bvId: string)
    requires CookieUsable(env.cookieFile)
    requires BvTitle(env, bvId).Ok?
    ensures BvTitle(env, bvId).value.0 == GetBvCidTitle(bvId, env.view(bvId).value).title
  {
  }
}
