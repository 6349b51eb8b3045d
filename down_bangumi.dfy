/** The episode download path: stream choice, file naming, the history line, the skip when the
    output exists, the two downloads and the merge with its cleanup, and the season loop. */
module DownBangumi {
  import opened Wrappers
  import opened Numbers
  import opened Resolution
  import opened Tracks
  import opened RefreshCookie
  import opened World

  /** `get_file_url`: the last highest-bandwidth video stream of the requested code, else the
      first stream; the audio stream with the largest `size`. The label must be one of the
      eight, since an empty code makes the `parse().unwrap()` panic. */
  function GetFileUrl(m: Manifest, rsl: string): (r: Result<Selection>)
    requires ParseI32(Qn(rsl)).Some?
    ensures r == SelectTracks(m, ParseI32(Qn(rsl)).value, 0, BySize)
    ensures r.Ok? && !HasMatch(m.video.value, ParseI32(Qn(rsl)).value) ==>
      r.value.videoUrl == VideoUrlAt(m.video.value, 0) && r.value.qn == VideoIdAt(m.video.value, 0)
  {
    SelectTracks(m, ParseI32(Qn(rsl)).value, 0, BySize)
  }

  /** Requesting 1080P60 from a manifest that only has 1080P (code 80) streams is not an error:
      the first stream is taken and the file is labelled 1080P. */
  lemma FallbackFrom1080P60To1080P(m: Manifest)
    requires m.video.Some? && m.video.value != [] && m.audio.Some? && m.audio.value != []
    requires forall k :: 0 <= k < |m.video.value| ==> m.video.value[k].id == Some(80)
    ensures ParseI32(Qn("1080P60")).Some?
    ensures GetFileUrl(m, "1080P60").Ok?
    ensures GetFileUrl(m, "1080P60").value.videoUrl == m.video.value[0].baseUrl.GetOr("")
    ensures Rsl(ToDecimal(GetFileUrl(m, "1080P60").value.qn)) == "1080P"
  {
    QnParses("1080P60");
    assert Labels[3] == "1080P60";
    RslOfNumber(80);
    assert CodeValues[4] == 80;
  }

  /** The characters Windows forbids in file names. */
  predicate IsForbidden(c: char)
  {
    c == '<' || c == '>' || c == ':' || c == '"' || c == '/' || c == '\\' || c == '|' || c == '?' || c == '*'
  }

  /** `remove_punctuation`: the characters of `s` that are allowed in file names. */
  function RemovePunctuation(s: string): (r: string)
    ensures |r| <= |s|
    ensures forall k :: 0 <= k < |r| ==> !IsForbidden(r[k])
  {
    if s == [] then []
    else if IsForbidden(s[0]) then RemovePunctuation(s[1..])
    else [s[0]] + RemovePunctuation(s[1..])
  }

  /** Every character that is not forbidden survives, as often as it occurred. */
  lemma {:induction false} RemovePunctuationKeepsAllowed(s: string, c: char)
    requires !IsForbidden(c)
    ensures multiset(RemovePunctuation(s))[c] == multiset(s)[c]
  {
    if s != [] {
      assert s == [s[0]] + s[1..];
      RemovePunctuationKeepsAllowed(s[1..], c);
    }
  }

  /** A name without forbidden characters is kept as it is. */
  lemma {:induction false} RemovePunctuationKeepsClean(s: string)
    requires forall k :: 0 <= k < |s| ==> !IsForbidden(s[k])
    ensures RemovePunctuation(s) == s
  {
    if s != [] {
      RemovePunctuationKeepsClean(s[1..]);
    }
  }

  /** Sanitising twice is sanitising once. */
  lemma RemovePunctuationIdempotent(s: string)
    ensures RemovePunctuation(RemovePunctuation(s)) == RemovePunctuation(s)
  {
    RemovePunctuationKeepsClean(RemovePunctuation(s));
  }

  /** The filter works piecewise, so the characters it keeps stay in their order. */
  lemma {:induction false} RemovePunctuationAppend(a: string, b: string)
    ensures RemovePunctuation(a + b) == RemovePunctuation(a) + RemovePunctuation(b)
  {
    if a != [] {
      assert (a + b)[1..] == a[1..] + b;
      RemovePunctuationAppend(a[1..], b);
    } else {
      assert a + b == b;
    }
  }

  /** The position of the first episode whose `ep_id` (0 when missing) is `id`. */
  function FirstEpisode(eps: seq<Episode>, id: int): (r: Option<nat>)
    ensures r.Some? ==> r.value < |eps| && AsI64(eps[r.value].epId).GetOr(0) == id
    ensures r.Some? ==> forall k :: 0 <= k < r.value ==> AsI64(eps[k].epId).GetOr(0) != id
    ensures r.None? ==> forall k :: 0 <= k < |eps| ==> AsI64(eps[k].epId).GetOr(0) != id
  {
    if eps == [] then None
    else if AsI64(eps[0].epId).GetOr(0) == id then Some(0)
    else match FirstEpisode(eps[1..], id)
      case Some(i) => Some(i + 1)
      case None => None
  }

  /** The episode `get_bangumi_name_from_json` and `get_bangumi_pic` read: the first one with
      the ep id, else the first one; none when the list is missing or empty. */
  function EpisodeFor(info: SeasonInfo, id: int): (e: Option<Episode>)
    ensures info.episodes.None? || info.episodes.value == [] ==> e.None?
    ensures info.episodes.Some? && FirstEpisode(info.episodes.value, id).Some? ==>
      e == Some(info.episodes.value[FirstEpisode(info.episodes.value, id).value])
    ensures info.episodes.Some? && info.episodes.value != [] && FirstEpisode(info.episodes.value, id).None? ==>
      e == Some(info.episodes.value[0])
  {
    var eps := info.episodes.GetOr([]);
    var i := FirstEpisode(eps, id).GetOr(0);
    if i < |eps| then Some(eps[i]) else None
  }

  /** `get_bangumi_name_from_json`: the episode's `share_copy`, "" when there is none. The ep
      id must be a decimal i64, since its `parse().unwrap()` panics otherwise. */
  function GetBangumiNameFromJson(info: SeasonInfo, epId: string): (name: string)
    requires ParseI64(epId).Some?
    ensures EpisodeFor(info, ParseI64(epId).value).None? ==> name == ""
    ensures EpisodeFor(info, ParseI64(epId).value).Some? ==>
      name == EpisodeFor(info, ParseI64(epId).value).value.shareCopy.GetOr("")
  {
    match EpisodeFor(info, ParseI64(epId).value)
    case Some(e) => e.shareCopy.GetOr("")
    case None => ""
  }

  /** `get_bangumi_pic`: the same episode's `cover`. */
  function GetBangumiPic(info: SeasonInfo, epId: string): (pic: string)
    requires ParseI64(epId).Some?
    ensures EpisodeFor(info, ParseI64(epId).value).None? ==> pic == ""
    ensures EpisodeFor(info, ParseI64(epId).value).Some? ==>
      pic == EpisodeFor(info, ParseI64(epId).value).value.cover.GetOr("")
  {
    match EpisodeFor(info, ParseI64(epId).value)
    case Some(e) => e.cover.GetOr("")
    case None => ""
  }

  /** The file name: the title, a space, and the label of the quality actually chosen. */
  function FileName(title: string, qn: int): string
  {
    title + " " + Rsl(ToDecimal(qn))
  }

  function VideoPath(save: string, name: string): string { save + "/" + name + "_video.m4s" }
  function AudioPath(save: string, name: string): string { save + "/" + name + "_audio.m4s" }
  function OutputPath(save: string, name: string): string { save + "/" + name + ".mp4" }

  /** The two intermediate files and the output are three different files. */
  lemma PathsDistinct(save: string, name: string)
    ensures VideoPath(save, name) != AudioPath(save, name)
    ensures VideoPath(save, name) != OutputPath(save, name)
    ensures AudioPath(save, name) != OutputPath(save, name)
  {
    var p := save + "/" + name;
    assert VideoPath(save, name) == p + "_video.m4s" && AudioPath(save, name) == p + "_audio.m4s";
    assert OutputPath(save, name) == p + ".mp4";
    assert VideoPath(save, name)[|p| + 1] == 'v' && AudioPath(save, name)[|p| + 1] == 'a';
    assert VideoPath(save, name)[|p|] == '_' && OutputPath(save, name)[|p|] == '.';
    assert AudioPath(save, name)[|p|] == '_';
  }

  /** One line of `dat.log`: time, identifier and file name, each followed by a tab. */
  function HistoryLine(now: string, id: string, name: string): string
  {
    now + "\t" + id + "\t" + name + "\t\n"
  }

  /** The files, the trace and the result after part of the pipeline. */
  datatype Outcome = Outcome(files: set<string>, trace: seq<Op>, result: Result<()>)

  /** The context `down_from_url` puts on a request that could not be sent. */
  const VideoSendFailed: string := "Failed to download video stream"

  /** Tokio's error for a spawned task that panicked, which the merge stage returns. */
  const MergeTaskPanicked: string := "task panicked"

  /** `concat_video_audio` after its directory check: nothing when the output exists; otherwise
      the muxer runs, and only on success both intermediates are removed (a missing one makes
      the removal panic inside the task, which surfaces as an error). A muxer that exits with
      a failure is not an error. */
  function MergeEffect(files: set<string>, trace: seq<Op>, mux: MuxOutcome, name: string, save: string): Outcome
  {
    var v, a, o := VideoPath(save, name), AudioPath(save, name), OutputPath(save, name);
    if o in files then Outcome(files, trace, Ok(()))
    else match mux
      case SpawnFailed => Outcome(files, trace, Err(MergeTaskPanicked))
      case Exited(false) => Outcome(files, trace + [Mux(v, a, o)], Ok(()))
      case Exited(true) =>
        var ran := trace + [Mux(v, a, o)];
        if v !in files then Outcome(files + {o}, ran, Err(MergeTaskPanicked))
        else if a !in files then Outcome(files + {o} - {v}, ran, Err(MergeTaskPanicked))
        else Outcome(files + {o} - {v, a}, ran, Ok(()))
  }

  /** The stage both download paths end with: skip when the output exists, otherwise the
      video stream, then the audio stream, then the merge; the first failure ends it. */
  function DownloadEffect(files: set<string>, trace: seq<Op>, env: Env, sendContext: string, videoUrl: string, audioUrl: string,
                          name: string, save: string): Outcome
  {
    var v, a, o := VideoPath(save, name), AudioPath(save, name), OutputPath(save, name);
    if o in files then Outcome(files, trace, Ok(()))
    else
      var t1 := env.transfer(videoUrl);
      var files1 := if t1.RequestFailed? then files else files + {v};
      var trace1 := trace + [Download(videoUrl, v)];
      if !t1.Completed? then Outcome(files1, trace1, Err(TransferError(t1, sendContext)))
      else
        var t2 := env.transfer(audioUrl);
        var files2 := if t2.RequestFailed? then files1 else files1 + {a};
        var trace2 := trace1 + [Download(audioUrl, a)];
        if !t2.Completed? then Outcome(files2, trace2, Err(TransferError(t2, sendContext)))
        else MergeEffect(files2, trace2, env.mux(o), name, save)
  }

  /** The actions the stage performs, in order: download the video, download the audio, merge. */
  function Plan(videoUrl: string, audioUrl: string, name: string, save: string): seq<Op>
  {
    var v, a, o := VideoPath(save, name), AudioPath(save, name), OutputPath(save, name);
    [Download(videoUrl, v), Download(audioUrl, a), Mux(v, a, o)]
  }

  /** The stage only ever appends a prefix of the plan to the trace: never the audio before the
      video, never the merge before both; and nothing at all when the output already exists. */
  lemma DownloadFollowsPlan(files: set<string>, trace: seq<Op>, env: Env, sendContext: string, videoUrl: string, audioUrl: string,
                            name: string, save: string)
    ensures var out := DownloadEffect(files, trace, env, sendContext, videoUrl, audioUrl, name, save);
      exists n :: 0 <= n <= 3 && out.trace == trace + Plan(videoUrl, audioUrl, name, save)[..n]
    ensures OutputPath(save, name) in files ==> DownloadEffect(files, trace, env, sendContext, videoUrl, audioUrl, name, save) == Outcome(files, trace, Ok(()))
  {
    var out := DownloadEffect(files, trace, env, sendContext, videoUrl, audioUrl, name, save);
    var plan := Plan(videoUrl, audioUrl, name, save);
    if OutputPath(save, name) in files {
      assert out.trace == trace + plan[..0];
    } else if !env.transfer(videoUrl).Completed? {
      assert out.trace == trace + plan[..1];
    } else if !env.transfer(audioUrl).Completed? {
      assert out.trace == trace + plan[..2];
    } else if env.mux(OutputPath(save, name)).SpawnFailed? {
      assert out.trace == trace + plan[..2];
    } else {
      assert out.trace == trace + plan[..3];
    }
  }

  /** Both streams downloaded and the muxer succeeded: the output exists and both intermediates
      are gone. */
  lemma SuccessfulMergeCleansUp(files: set<string>, trace: seq<Op>, env: Env, sendContext: string, videoUrl: string, audioUrl: string,
                                name: string, save: string)
    requires OutputPath(save, name) !in files
    requires env.transfer(videoUrl).Completed? && env.transfer(audioUrl).Completed?
    requires env.mux(OutputPath(save, name)) == Exited(true)
    ensures var out := DownloadEffect(files, trace, env, sendContext, videoUrl, audioUrl, name, save);
      && out.result.Ok?
      && out.files == files + {OutputPath(save, name)} - {VideoPath(save, name), AudioPath(save, name)}
      && OutputPath(save, name) in out.files
  {
    PathsDistinct(save, name);
  }

  /** Both streams downloaded and the muxer failed: the intermediates stay, there is no output,
      and the stage still reports success. */
  lemma FailedMergeKeepsIntermediates(files: set<string>, trace: seq<Op>, env: Env, sendContext: string, videoUrl: string, audioUrl: string,
                                      name: string, save: string)
    requires OutputPath(save, name) !in files
    requires env.transfer(videoUrl).Completed? && env.transfer(audioUrl).Completed?
    requires env.mux(OutputPath(save, name)) == Exited(false)
    ensures var out := DownloadEffect(files, trace, env, sendContext, videoUrl, audioUrl, name, save);
      && out.result.Ok?
      && VideoPath(save, name) in out.files && AudioPath(save, name) in out.files
      && OutputPath(save, name) !in out.files
  {
    PathsDistinct(save, name);
  }

  /** Running the stage again after it produced the output changes nothing and runs nothing. */
  lemma DownloadIdempotent(files: set<string>, trace: seq<Op>, env: Env, sendContext: string, videoUrl: string, audioUrl: string,
                           name: string, save: string)
    requires OutputPath(save, name) in DownloadEffect(files, trace, env, sendContext, videoUrl, audioUrl, name, save).files
    ensures var once := DownloadEffect(files, trace, env, sendContext, videoUrl, audioUrl, name, save);
      DownloadEffect(once.files, once.trace, env, sendContext, videoUrl, audioUrl, name, save) == Outcome(once.files, once.trace, Ok(()))
  {
  }

  /** `concat_video_audio` */
  method ConcatVideoAudio(disk: Disk, env: Env, name: string, save: string) returns (r: Result<()>)
    modifies disk
    ensures Outcome(disk.files, disk.trace, r) ==
      MergeEffect(old(disk.files), old(disk.trace), env.mux(OutputPath(save, name)), name, save)
    ensures disk.dirs == old(disk.dirs) + {save} && disk.history == old(disk.history)
  {
    disk.EnsureDir(save);
    var v, a, o := VideoPath(save, name), AudioPath(save, name), OutputPath(save, name);
    PathsDistinct(save, name);
    if o in disk.files {
      return Ok(());
    }
    match env.mux(o)
    case SpawnFailed =>
      r := Err(MergeTaskPanicked);
    case Exited(success) =>
      disk.RunMuxer(v, a, o, success);
      if !success {
        return Ok(());
      }
      var removedVideo := disk.RemoveFile(v);
      if !removedVideo {
        return Err(MergeTaskPanicked);
      }
      var removedAudio := disk.RemoveFile(a);
      if !removedAudio {
        return Err(MergeTaskPanicked);
      }
      r := Ok(());
  }

  /** The part both download paths share once the name is known: skip when the output exists,
      else download the video, then the audio, then merge. */
  method DownloadAndMerge(disk: Disk, env: Env, sendContext: string, videoUrl: string, audioUrl: string, name: string, save: string)
    returns (r: Result<()>)
    modifies disk
    ensures Outcome(disk.files, disk.trace, r) ==
      DownloadEffect(old(disk.files), old(disk.trace), env, sendContext, videoUrl, audioUrl, name, save)
    ensures OutputPath(save, name) !in old(disk.files) && env.transfer(videoUrl).Completed? && env.transfer(audioUrl).Completed?
      ==> disk.dirs == old(disk.dirs) + {save}
    ensures old(disk.dirs) <= disk.dirs <= old(disk.dirs) + {save} && disk.history == old(disk.history)
  {
    var v, a, o := VideoPath(save, name), AudioPath(save, name), OutputPath(save, name);
    if o in disk.files {
      return Ok(());
    }
    r := disk.Fetch(videoUrl, v, env.transfer(videoUrl), sendContext);
    if r.Err? {
      return;
    }
    r := disk.Fetch(audioUrl, a, env.transfer(audioUrl), sendContext);
    if r.Err? {
      return;
    }
    r := ConcatVideoAudio(disk, env, name, save);
  }

  /** The file name of an episode: its sanitised title and the label of the chosen quality. */
  function BangumiFileName(info: SeasonInfo, epId: string, qn: int): (name: string)
    requires ParseI64(epId).Some?
  {
    FileName(RemovePunctuation(GetBangumiNameFromJson(info, epId)), qn)
  }

  /** What `down_file_bangumi` leaves on the disk and returns: a failed choice changes nothing;
      otherwise the history line, the save directory, then `DownloadEffect`. */
  function DownFileBangumiEffect(s: DiskState, env: Env, resp: Manifest, info: SeasonInfo, epId: string, rsl: string,
                                 save: string): (out: Step<()>)
    requires ParseI32(Qn(rsl)).Some?
    requires GetFileUrl(resp, rsl).Ok? ==> ParseI64(epId).Some?
    ensures Extends(s, out.state)
    ensures out.result.Ok? ==> |out.state.history| == |s.history| + 1
    ensures |out.state.history| <= |s.history| + 1
  {
    match GetFileUrl(resp, rsl)
    case Err(e) => Step(s, Err(e))
    case Ok(sel) =>
      var name := BangumiFileName(info, epId, sel.qn);
      var d := DownloadEffect(s.files, s.trace, env, VideoSendFailed, sel.videoUrl, sel.audioUrl, name, save);
      DownloadFollowsPlan(s.files, s.trace, env, VideoSendFailed, sel.videoUrl, sel.audioUrl, name, save);
      Step(DiskState(d.files, s.dirs + {save}, s.history + [HistoryLine(env.now, "ep" + epId, name)], d.trace), d.result)
  }

  /** `down_file_bangumi`: choose the streams, name the file, log the history line, make the
      save directory, then skip or download and merge. A failed choice ends it before anything
      is written. */
  method DownFileBangumi(disk: Disk, env: Env, resp: Manifest, info: SeasonInfo, epId: string, rsl: string, save: string)
    returns (r: Result<()>)
    requires ParseI32(Qn(rsl)).Some?
    requires GetFileUrl(resp, rsl).Ok? ==> ParseI64(epId).Some?
    modifies disk
    ensures Step(disk.Snapshot(), r) == DownFileBangumiEffect(old(disk.Snapshot()), env, resp, info, epId, rsl, save)
    ensures GetFileUrl(resp, rsl).Err? ==>
      r == Err(GetFileUrl(resp, rsl).error) &&
      disk.files == old(disk.files) && disk.dirs == old(disk.dirs) &&
      disk.history == old(disk.history) && disk.trace == old(disk.trace)
    ensures GetFileUrl(resp, rsl).Ok? ==>
      var sel := GetFileUrl(resp, rsl).value;
      var name := BangumiFileName(info, epId, sel.qn);
      && disk.history == old(disk.history) + [HistoryLine(env.now, "ep" + epId, name)]
      && disk.dirs == old(disk.dirs) + {save}
      && Outcome(disk.files, disk.trace, r) ==
         DownloadEffect(old(disk.files), old(disk.trace), env, VideoSendFailed, sel.videoUrl, sel.audioUrl, name, save)
  {
    var sel := GetFileUrl(resp, rsl);
    if sel.Err? {
      return Err(sel.error);
    }
    var name := BangumiFileName(info, epId, sel.value.qn);
    disk.AppendHistory(HistoryLine(env.now, "ep" + epId, name));
    disk.EnsureDir(save);
    r := DownloadAndMerge(disk, env, VideoSendFailed, sel.value.videoUrl, sel.value.audioUrl, name, save);
  }

  /** `read_cookie_or_not`: the stored credential, an empty one without a file, an error when
      the file does not deserialize. */
  function ReadCookieOrNot(f: CookieFile): (r: Result<Cookies>)
    ensures f.Absent? ==> r == Ok(EmptyCookies)
    ensures f.Present? ==> r == f.parsed
  {
    match f
    case Absent => Ok(EmptyCookies)
    case Present(p) => p
  }

  /** The cookie file never makes `create_headers` panic. */
  predicate CookieUsable(f: CookieFile)
  {
    f.Present? && f.parsed.Ok? ==> IsHeaderText(f.parsed.value.sessdata)
  }

  /** The ep id of the i-th episode as the season loop prints it. */
  function SeasonEpId(eps: seq<Episode>, i: nat): (id: string)
    requires i < |eps|
    ensures ParseI64(id).Some?
  {
    ParseToDecimal(AsI64(eps[i].epId).GetOr(0), -TwoTo63, TwoTo63);
    ToDecimal(AsI64(eps[i].epId).GetOr(0))
  }

  /** The printed ep id reads back as the episode's id (0 when it is missing or out of range),
      so the episode's own `unwrap` on it cannot fail. */
  lemma SeasonEpIdParses(eps: seq<Episode>, i: nat)
    requires i < |eps|
    ensures ParseI64(SeasonEpId(eps, i)) == Some(AsI64(eps[i].epId).GetOr(0))
  {
    ParseToDecimal(AsI64(eps[i].epId).GetOr(0), -TwoTo63, TwoTo63);
  }

  /** What the source's `unwrap`s need from the responses: a season answer holds an episode
      array, and a single episode whose streams can be chosen has a numeric id. */
  predicate BangumiInputsUsable(env: Env, epId: string, seasonId: string, rsl: string)
    requires ParseI32(Qn(rsl)).Some?
  {
    && CookieUsable(env.cookieFile)
    && (seasonId != "" && env.season(epId, seasonId).Ok? ==> env.season(epId, seasonId).value.episodes.Some?)
    && (seasonId == "" && env.playurl(epId).Ok? && GetFileUrl(env.playurl(epId).value, rsl).Ok? ==> ParseI64(epId).Some?)
  }

  /** What `down_season` leaves on the disk and returns: a failed play-url request changes
      nothing; otherwise `down_file_bangumi` on the answer. */
  function DownSeasonEffect(s: DiskState, env: Env, epId: string, info: SeasonInfo, rsl: string, save: string): (out: Step<()>)
    requires ParseI32(Qn(rsl)).Some?
    requires env.playurl(epId).Ok? && GetFileUrl(env.playurl(epId).value, rsl).Ok? ==> ParseI64(epId).Some?
    ensures Extends(s, out.state)
    ensures out.result.Ok? ==> |out.state.history| == |s.history| + 1
    ensures |out.state.history| <= |s.history| + 1
  {
    match env.playurl(epId)
    case Err(e) => Step(s, Err(e))
    case Ok(resp) => DownFileBangumiEffect(s, env, resp, info, epId, rsl, save)
  }

  /** `down_season`, and the same two steps for a single episode: fetch the episode's
      play-url response, then `down_file_bangumi`. A failed request ends it with its error. */
  method DownSeason(disk: Disk, env: Env, epId: string, info: SeasonInfo, rsl: string, save: string)
    returns (r: Result<()>)
    requires ParseI32(Qn(rsl)).Some?
    requires env.playurl(epId).Ok? && GetFileUrl(env.playurl(epId).value, rsl).Ok? ==> ParseI64(epId).Some?
    modifies disk
    ensures Step(disk.Snapshot(), r) == DownSeasonEffect(old(disk.Snapshot()), env, epId, info, rsl, save)
    ensures env.playurl(epId).Err? ==>
      r == Err(env.playurl(epId).error) &&
      disk.files == old(disk.files) && disk.dirs == old(disk.dirs) &&
      disk.history == old(disk.history) && disk.trace == old(disk.trace)
    ensures env.playurl(epId).Ok? && GetFileUrl(env.playurl(epId).value, rsl).Err? ==>
      r == Err(GetFileUrl(env.playurl(epId).value, rsl).error) &&
      disk.files == old(disk.files) && disk.dirs == old(disk.dirs) &&
      disk.history == old(disk.history) && disk.trace == old(disk.trace)
    ensures env.playurl(epId).Ok? && GetFileUrl(env.playurl(epId).value, rsl).Ok? ==>
      var sel := GetFileUrl(env.playurl(epId).value, rsl).value;
      var name := BangumiFileName(info, epId, sel.qn);
      && disk.history == old(disk.history) + [HistoryLine(env.now, "ep" + epId, name)]
      && disk.dirs == old(disk.dirs) + {save}
      && Outcome(disk.files, disk.trace, r) ==
         DownloadEffect(old(disk.files), old(disk.trace), env, VideoSendFailed, sel.videoUrl, sel.audioUrl, name, save)
  {
    var resp := env.playurl(epId);
    if resp.Err? {
      return Err(resp.error);
    }
    r := DownFileBangumi(disk, env, resp.value, info, epId, rsl, save);
  }

  /** What the season loop leaves on the disk and returns from episode `i` on: each episode
      through `down_season` in list order, the first failure ending the loop. When the loop
      gets through, every remaining episode logged exactly one history line. */
  function SeasonEffect(s: DiskState, env: Env, eps: seq<Episode>, i: nat, info: SeasonInfo, rsl: string, save: string)
    : (out: Step<()>)
    requires i <= |eps|
    requires ParseI32(Qn(rsl)).Some?
    ensures Extends(s, out.state)
    ensures out.result.Ok? ==> |out.state.history| == |s.history| + (|eps| - i)
    ensures |out.state.history| <= |s.history| + (|eps| - i)
    decreases |eps| - i
  {
    if i == |eps| then Step(s, Ok(()))
    else
      var one := DownSeasonEffect(s, env, SeasonEpId(eps, i), info, rsl, save);
      if one.result.Err? then one else SeasonEffect(one.state, env, eps, i + 1, info, rsl, save)
  }

  /** The k-th episode of the season took the disk from `s` to `t` and came to `outcome`. */
  predicate EpisodeStep(env: Env, eps: seq<Episode>, info: SeasonInfo, rsl: string, save: string,
                        k: nat, s: DiskState, t: DiskState, outcome: Result<()>)
    requires ParseI32(Qn(rsl)).Some?
  {
    k < |eps| && Step(t, outcome) == DownSeasonEffect(s, env, SeasonEpId(eps, k), info, rsl, save)
  }

  /** Each of the first episodes took the disk from one recorded state to the next. */
  predicate StepsFollow(env: Env, eps: seq<Episode>, info: SeasonInfo, rsl: string, save: string,
                        states: seq<DiskState>, outcomes: seq<Result<()>>)
    requires ParseI32(Qn(rsl)).Some?
  {
    && |outcomes| <= |eps| && |states| == |outcomes| + 1
    && forall k :: 0 <= k < |outcomes| ==> EpisodeStep(env, eps, info, rsl, save, k, states[k], states[k + 1], outcomes[k])
  }

  /** Recording one more episode keeps the states following each other. */
  lemma StepsFollowExtend(env: Env, eps: seq<Episode>, info: SeasonInfo, rsl: string, save: string,
                          states: seq<DiskState>, outcomes: seq<Result<()>>, next: DiskState, outcome: Result<()>)
    requires ParseI32(Qn(rsl)).Some?
    requires StepsFollow(env, eps, info, rsl, save, states, outcomes)
    requires EpisodeStep(env, eps, info, rsl, save, |outcomes|, states[|outcomes|], next, outcome)
    ensures StepsFollow(env, eps, info, rsl, save, states + [next], outcomes + [outcome])
  {
    var states', outcomes' := states + [next], outcomes + [outcome];
    forall k | 0 <= k < |outcomes'|
      ensures EpisodeStep(env, eps, info, rsl, save, k, states'[k], states'[k + 1], outcomes'[k])
    {
      if k < |outcomes| {
        assert states'[k + 1] == states[k + 1] && states'[k] == states[k] && outcomes'[k] == outcomes[k];
      } else {
        assert states'[k + 1] == next && states'[k] == states[|outcomes|] && outcomes'[k] == outcome;
      }
    }
  }

  /** One turn of the season loop: the i-th episode through `down_season`. */
  method DownEpisodeAt(disk: Disk, env: Env, eps: seq<Episode>, i: nat, info: SeasonInfo, rsl: string, save: string)
    returns (r: Result<()>)
    requires i < |eps|
    requires ParseI32(Qn(rsl)).Some?
    modifies disk
    ensures Step(disk.Snapshot(), r) == DownSeasonEffect(old(disk.Snapshot()), env, SeasonEpId(eps, i), info, rsl, save)
  {
    r := DownSeason(disk, env, SeasonEpId(eps, i), info, rsl, save);
  }

  /** One turn of `SeasonEffect`: a failing episode ends it, a succeeding one hands the disk it
      leaves to the next. */
  lemma SeasonStep(s: DiskState, env: Env, eps: seq<Episode>, i: nat, info: SeasonInfo, rsl: string, save: string,
                   next: DiskState, outcome: Result<()>)
    requires i < |eps| && ParseI32(Qn(rsl)).Some?
    requires Step(next, outcome) == DownSeasonEffect(s, env, SeasonEpId(eps, i), info, rsl, save)
    ensures outcome.Err? ==> SeasonEffect(s, env, eps, i, info, rsl, save) == Step(next, outcome)
    ensures outcome.Ok? ==> SeasonEffect(s, env, eps, i, info, rsl, save) == SeasonEffect(next, env, eps, i + 1, info, rsl, save)
  {
  }

  /** The season loop of `download_bangumi`: every episode in list order, stopping at the
      first failure. `outcomes` records what each episode whose play-url was requested came
      to, and `states` the disk before each of them and after the last. */
  method DownloadEpisodes(disk: Disk, env: Env, eps: seq<Episode>, info: SeasonInfo, rsl: string, save: string)
    returns (r: Result<()>, ghost outcomes: seq<Result<()>>, ghost states: seq<DiskState>)
    requires ParseI32(Qn(rsl)).Some?
    modifies disk
    ensures Step(disk.Snapshot(), r) == SeasonEffect(old(disk.Snapshot()), env, eps, 0, info, rsl, save)
    ensures StepsFollow(env, eps, info, rsl, save, states, outcomes)
    ensures states[0] == old(disk.Snapshot()) && states[|outcomes|] == disk.Snapshot()
    ensures forall k :: 0 <= k < |outcomes| - 1 ==> outcomes[k].Ok?
    ensures r.Ok? <==> |outcomes| == |eps| && forall k :: 0 <= k < |outcomes| ==> outcomes[k].Ok?
    ensures r.Err? ==> outcomes != [] && outcomes[|outcomes| - 1] == r
  {
    ghost var s0 := disk.Snapshot();
    outcomes, states := [], [s0];
    var i := 0;
    while i < |eps|
      invariant 0 <= i <= |eps|
      invariant |outcomes| == i && StepsFollow(env, eps, info, rsl, save, states, outcomes)
      invariant states[0] == s0 && states[i] == disk.Snapshot()
      invariant forall k :: 0 <= k < i ==> outcomes[k].Ok?
      invariant SeasonEffect(s0, env, eps, 0, info, rsl, save) == SeasonEffect(disk.Snapshot(), env, eps, i, info, rsl, save)
    {
      ghost var before := disk.Snapshot();
      var one := DownEpisodeAt(disk, env, eps, i, info, rsl, save);
      SeasonStep(before, env, eps, i, info, rsl, save, disk.Snapshot(), one);
      StepsFollowExtend(env, eps, info, rsl, save, states, outcomes, disk.Snapshot(), one);
      outcomes, states := outcomes + [one], states + [disk.Snapshot()];
      if one.Err? {
        assert outcomes[i] == one;
        return one, outcomes, states;
      }
      i := i + 1;
    }
    r := Ok(());
  }

  /** What `download_bangumi` leaves on the disk and returns: a cookie or season-request error
      before anything is written; then the season loop over the answer's episodes with a
      season id, or the one episode without. */
  function DownloadBangumiEffect(s: DiskState, env: Env, epId: string, seasonId: string, rsl: string, save: string)
    : (out: Step<()>)
    requires ParseI32(Qn(rsl)).Some?
    requires BangumiInputsUsable(env, epId, seasonId, rsl)
    ensures Extends(s, out.state)
  {
    match ReadCookieOrNot(env.cookieFile)
    case Err(e) => Step(s, Err(e))
    case Ok(_) =>
      match env.season(epId, seasonId)
      case Err(e) => Step(s, Err(e))
      case Ok(info) =>
        if seasonId != "" then SeasonEffect(s, env, info.episodes.value, 0, info, rsl, save)
        else DownSeasonEffect(s, env, epId, info, rsl, save)
  }

  /** `download_bangumi` (and `down_main`, which only forwards it): with a season id, the
      season loop over the season's episodes; otherwise the one episode. */
  method DownloadBangumi(disk: Disk, env: Env, epId: string, seasonId: string, rsl: string, save: string)
    returns (r: Result<()>)
    requires ParseI32(Qn(rsl)).Some?
    requires BangumiInputsUsable(env, epId, seasonId, rsl)
    modifies disk
    ensures Step(disk.Snapshot(), r) == DownloadBangumiEffect(old(disk.Snapshot()), env, epId, seasonId, rsl, save)
    ensures ReadCookieOrNot(env.cookieFile).Err? ==> r == Err(ReadCookieOrNot(env.cookieFile).error)
    ensures ReadCookieOrNot(env.cookieFile).Ok? && env.season(epId, seasonId).Err? ==> r == Err(env.season(epId, seasonId).error)
    ensures ReadCookieOrNot(env.cookieFile).Ok? && env.season(epId, seasonId).Ok? && seasonId == "" ==>
      Step(disk.Snapshot(), r) == DownSeasonEffect(old(disk.Snapshot()), env, epId, env.season(epId, seasonId).value, rsl, save)
    ensures ReadCookieOrNot(env.cookieFile).Ok? && env.season(epId, seasonId).Ok? && seasonId != "" ==>
      var info := env.season(epId, seasonId).value;
      Step(disk.Snapshot(), r) == SeasonEffect(old(disk.Snapshot()), env, info.episodes.value, 0, info, rsl, save)
  {
    var cookie := ReadCookieOrNot(env.cookieFile);
    if cookie.Err? {
      return Err(cookie.error);
    }
    // Every request goes out with `CreateHeaders` of the cookie, which `CookieUsable` allows;
    // the answers in `env` are the ones sent with them.
    var info := env.season(epId, seasonId);
    if info.Err? {
      return Err(info.error);
    }
    if seasonId != "" {
      var done, _, _ := DownloadEpisodes(disk, env, info.value.episodes.value, info.value, rsl, save);
      r := done;
    } else {
      r := DownSeason(disk, env, epId, info.value, rsl, save);
    }
  }

  /** `bangumi_title`: for an episode, its sanitised `share_copy` and its `cover`; for a season,
      the season's sanitised title and cover. */
  function BangumiTitle(env: Env, epId: string, seasonId: string): (r: Result<(string, string)>)
    requires CookieUsable(env.cookieFile)
    requires epId != "" && env.season(epId, seasonId).Ok? ==> ParseI64(epId).Some?
    ensures ReadCookieOrNot(env.cookieFile).Err? ==> r == Err(ReadCookieOrNot(env.cookieFile).error)
    ensures ReadCookieOrNot(env.cookieFile).Ok? ==> (r.Err? <==> env.season(epId, seasonId).Err?)
    ensures ReadCookieOrNot(env.cookieFile).Ok? && env.season(epId, seasonId).Err? ==>
      r == Err(env.season(epId, seasonId).error)
    ensures r.Ok? && epId != "" ==>
      var info := env.season(epId, seasonId).value;
      r.value == (RemovePunctuation(GetBangumiNameFromJson(info, epId)), GetBangumiPic(info, epId))
    ensures r.Ok? && epId == "" ==>
      var info := env.season(epId, seasonId).value;
      r.value == (RemovePunctuation(info.title.GetOr("")), info.cover.GetOr(""))
    ensures r.Ok? ==> forall k :: 0 <= k < |r.value.0| ==> !IsForbidden(r.value.0[k])
  {
    // The request goes out with `CreateHeaders` of the cookie, which `CookieUsable` allows.
    var _ :- ReadCookieOrNot(env.cookieFile);
    var info :- env.season(epId, seasonId);
    if epId != "" then
      Ok((RemovePunctuation(GetBangumiNameFromJson(info, epId)), GetBangumiPic(info, epId)))
    else
      Ok((RemovePunctuation(info.title.GetOr("")), info.cover.GetOr("")))
  }
}
