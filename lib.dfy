/** The commands the window calls: the offered qualities, the video information for a link,
    one download turned into a result record, and a batch of links downloaded one after
    another with one record per link. */
module Lib {
  import opened Wrappers
  import opened Numbers
  import opened Resolution
  import opened RefreshCookie
  import opened World
  import opened DownBangumi
  import opened Init
  import Text

  /** What a download reports to the window. */
  datatype DownloadResult = DownloadResult(success: bool, message: string, title: Option<string>)

  /** What the information command reports to the window. */
  datatype VideoInfo = VideoInfo(title: string, picUrl: string)

  const DefaultResolution: string := "4K"
  const ParseFailed: string := "解析 URL 失败: "
  const InfoFailed: string := "获取视频信息失败: "
  const Downloaded: string := "下载完成: "
  const DownloadFailed: string := "下载失败: "

  /** `get_resolutions`: the labels the quality menu offers, best first. */
  function GetResolutions(): (labels: seq<string>)
    ensures labels == Labels
    ensures forall i, j :: 0 <= i < j < |labels| ==> labels[i] != labels[j]
  {
    ["HDR", "4K", "1080P+", "1080P60", "1080P", "720P", "480P", "360P"]
  }

  /** Every offered label is one the download paths accept without panicking. */
  lemma OfferedLabelsAreAccepted()
    ensures forall k :: 0 <= k < |GetResolutions()| ==> ParseI32(Qn(GetResolutions()[k])).Some?
  {
    forall k | 0 <= k < |Labels| ensures ParseI32(Qn(Labels[k])).Some? {
      QnParses(Labels[k]);
    }
  }

  /** An empty choice means 4K; any other is passed on as it is. */
  function EffectiveResolution(resolution: string): string
  {
    if resolution == "" then DefaultResolution else resolution
  }

  /** The resolution the window sends is accepted when it is empty or one of the offered labels. */
  lemma EffectiveResolutionAccepted(resolution: string)
    requires resolution == "" || resolution in GetResolutions()
    ensures ParseI32(Qn(EffectiveResolution(resolution))).Some?
    ensures resolution != "" ==> EffectiveResolution(resolution) == resolution
  {
    QnParses(EffectiveResolution(resolution));
    assert Labels[1] == DefaultResolution;
  }

  /** The record for what the dispatch returned. */
  function ResultOf(outcome: Result<string>): (d: DownloadResult)
    ensures d.success <==> outcome.Ok?
    ensures d.success <==> d.title.Some?
    ensures outcome.Ok? ==> d.title == Some(outcome.value) && d.message == Downloaded + outcome.value
    ensures outcome.Err? ==> d.message == DownloadFailed + outcome.error
  {
    match outcome
    case Ok(title) => DownloadResult(true, Downloaded + title, Some(title))
    case Err(e) => DownloadResult(false, DownloadFailed + e, None)
  }

  /** The record the batch keeps for one link: the single download's record, or a failed record
      carrying its error message. */
  function Entry(r: Result<DownloadResult>): (d: DownloadResult)
    ensures r.Ok? ==> d == r.value
    ensures r.Err? ==> !d.success && d.message == r.error && d.title.None?
  {
    match r
    case Ok(d) => d
    case Err(e) => DownloadResult(false, e, None)
  }

  /** What the record of one link says, whatever the network answers: success exactly when a
      title is reported, a link that does not parse or carries no id fails with its message. */
  predicate EntryFor(url: string, d: DownloadResult)
  {
    && (d.success <==> d.title.Some?)
    && (d.success ==> d.message == Downloaded + d.title.value)
    && (GetEpidSeason(url).Err? ==> d == DownloadResult(false, ParseFailed + GetEpidSeason(url).error, None))
    && (GetEpidSeason(url).Ok? && RouteOf(GetEpidSeason(url).value) == NoRoute ==>
          d == DownloadResult(false, DownloadFailed + NoVideoId, None))
  }

  /** What the answers must be for a link so that no `unwrap` on its path panics. */
  predicate LinkUsable(env: Env, url: string, rsl: string)
    requires ParseI32(Qn(rsl)).Some?
  {
    GetEpidSeason(url).Ok? ==> RouteUsable(env, GetEpidSeason(url).value, rsl)
  }

  /** The answers for every link of a batch are such that no `unwrap` panics. */
  predicate AllUsable(env: Env, urls: seq<string>, rsl: string)
    requires ParseI32(Qn(rsl)).Some?
    decreases |urls|
  {
    urls == [] || (LinkUsable(env, urls[0], rsl) && AllUsable(env, urls[1..], rsl))
  }

  /** The links of both parts of a usable batch are usable. */
  lemma {:induction false} AllUsableSplit(env: Env, a: seq<string>, b: seq<string>, rsl: string)
    requires ParseI32(Qn(rsl)).Some?
    requires AllUsable(env, a + b, rsl)
    ensures AllUsable(env, a, rsl) && AllUsable(env, b, rsl)
    decreases |a|
  {
    if a == [] {
      assert a + b == b;
    } else {
      Text.AppendTail(a, b);
      AllUsableSplit(env, a[1..], b, rsl);
    }
  }

  /** What `download_video_with_tx` leaves on the disk and returns: a link that does not parse
      is the command's error and changes nothing; otherwise the dispatch's outcome as a record. */
  function LinkEffect(s: DiskState, env: Env, url: string, resolution: string, save: string): (out: Step<DownloadResult>)
    requires ParseI32(Qn(EffectiveResolution(resolution))).Some?
    requires LinkUsable(env, url, EffectiveResolution(resolution))
    ensures Extends(s, out.state)
    ensures EntryFor(url, Entry(out.result))
  {
    match GetEpidSeason(url)
    case Err(e) => Step(s, Err(ParseFailed + e))
    case Ok(video) =>
      var c := ChooseEffect(s, env, video, EffectiveResolution(resolution), save);
      Step(c.state, Ok(ResultOf(c.result)))
  }

  /** `download_video_with_tx`: parse the link (a failure is the command's error), default the
      resolution, dispatch, and turn the outcome into a record. `outcome` is what the dispatch
      returned. */
  method DownloadVideoWithTx(disk: Disk, env: Env, url: string, resolution: string, save: string)
    returns (r: Result<DownloadResult>, ghost outcome: Result<string>)
    requires ParseI32(Qn(EffectiveResolution(resolution))).Some?
    requires LinkUsable(env, url, EffectiveResolution(resolution))
    modifies disk
    ensures Step(disk.Snapshot(), r) == LinkEffect(old(disk.Snapshot()), env, url, resolution, save)
    ensures GetEpidSeason(url).Err? ==>
      r == Err(ParseFailed + GetEpidSeason(url).error) && disk.Snapshot() == old(disk.Snapshot())
    ensures GetEpidSeason(url).Ok? ==>
      && Step(disk.Snapshot(), outcome) ==
         ChooseEffect(old(disk.Snapshot()), env, GetEpidSeason(url).value, EffectiveResolution(resolution), save)
      && r == Ok(ResultOf(outcome))
    ensures EntryFor(url, Entry(r))
  {
    var video := GetEpidSeason(url);
    if video.Err? {
      return Err(ParseFailed + video.error), Err(video.error);
    }
    var rsl := EffectiveResolution(resolution);
    var chosen := ChooseDownloadMethod(disk, env, video.value, rsl, save);
    outcome := chosen;
    r := Ok(ResultOf(chosen));
  }

  /** The disk after a batch and its records, one per link. */
  datatype Batch = Batch(state: DiskState, results: seq<DownloadResult>)

  /** What `download_videos` leaves on the disk and returns: the links one after another, each
      starting from the disk the previous one left, and one record per link in their order. */
  function BatchEffect(s: DiskState, env: Env, urls: seq<string>, resolution: string, save: string): (b: Batch)
    requires ParseI32(Qn(EffectiveResolution(resolution))).Some?
    requires AllUsable(env, urls, EffectiveResolution(resolution))
    ensures |b.results| == |urls|
    ensures Extends(s, b.state)
    decreases |urls|
  {
    if urls == [] then Batch(s, [])
    else
      var one := LinkEffect(s, env, urls[0], resolution, save);
      var rest := BatchEffect(one.state, env, urls[1..], resolution, save);
      Batch(rest.state, [Entry(one.result)] + rest.results)
  }

  /** Every record of a batch says what `EntryFor` promises about its own link. */
  lemma {:induction false} BatchEntries(s: DiskState, env: Env, urls: seq<string>, resolution: string, save: string)
    requires ParseI32(Qn(EffectiveResolution(resolution))).Some?
    requires AllUsable(env, urls, EffectiveResolution(resolution))
    ensures forall k :: 0 <= k < |urls| ==> EntryFor(urls[k], BatchEffect(s, env, urls, resolution, save).results[k])
    decreases |urls|
  {
    if urls != [] {
      var one := LinkEffect(s, env, urls[0], resolution, save);
      var rest := BatchEffect(one.state, env, urls[1..], resolution, save);
      BatchEntries(one.state, env, urls[1..], resolution, save);
      var results := BatchEffect(s, env, urls, resolution, save).results;
      assert results == [Entry(one.result)] + rest.results;
      forall k | 0 <= k < |urls| ensures EntryFor(urls[k], results[k]) {
        if k > 0 {
          assert urls[k] == urls[1..][k - 1] && results[k] == rest.results[k - 1];
        }
      }
    }
  }

  /** A batch of two lists of links is the first batch followed by the second, started from
      the disk the first one left. */
  lemma {:induction false} BatchAppend(s: DiskState, env: Env, a: seq<string>, b: seq<string>, resolution: string, save: string)
    requires ParseI32(Qn(EffectiveResolution(resolution))).Some?
    requires AllUsable(env, a, EffectiveResolution(resolution)) && AllUsable(env, b, EffectiveResolution(resolution))
    requires AllUsable(env, a + b, EffectiveResolution(resolution))
    ensures var first := BatchEffect(s, env, a, resolution, save);
      var second := BatchEffect(first.state, env, b, resolution, save);
      BatchEffect(s, env, a + b, resolution, save) == Batch(second.state, first.results + second.results)
    decreases |a|
  {
    if a == [] {
      assert a + b == b;
    } else {
      Text.AppendTail(a, b);
      BatchCons(s, env, a, resolution, save);
      BatchCons(s, env, a + b, resolution, save);
      var one := LinkEffect(s, env, a[0], resolution, save);
      AllUsableSplit(env, a[1..], b, EffectiveResolution(resolution));
      BatchAppend(one.state, env, a[1..], b, resolution, save);
      var first' := BatchEffect(one.state, env, a[1..], resolution, save);
      var second := BatchEffect(first'.state, env, b, resolution, save);
      Text.ConsAppend(Entry(one.result), first'.results, second.results);
    }
  }

  /** A batch that is not empty runs its first link and then the rest from the disk that
      link left. */
  lemma BatchCons(s: DiskState, env: Env, urls: seq<string>, resolution: string, save: string)
    requires ParseI32(Qn(EffectiveResolution(resolution))).Some?
    requires urls != [] && AllUsable(env, urls, EffectiveResolution(resolution))
    ensures LinkUsable(env, urls[0], EffectiveResolution(resolution)) && AllUsable(env, urls[1..], EffectiveResolution(resolution))
    ensures var one := LinkEffect(s, env, urls[0], resolution, save);
      var rest := BatchEffect(one.state, env, urls[1..], resolution, save);
      BatchEffect(s, env, urls, resolution, save) == Batch(rest.state, [Entry(one.result)] + rest.results)
  {
  }

  /** One failing link does not stop the batch: the record of link `k` is what that link alone
      gives on the disk the first `k` links left, and the records and disk of the first `k`
      links do not depend on the links after them. */
  lemma BatchIsolation(s: DiskState, env: Env, urls: seq<string>, k: nat, resolution: string, save: string)
    requires ParseI32(Qn(EffectiveResolution(resolution))).Some?
    requires AllUsable(env, urls, EffectiveResolution(resolution))
    requires k < |urls|
    requires AllUsable(env, urls[..k], EffectiveResolution(resolution)) && AllUsable(env, urls[k..], EffectiveResolution(resolution))
    ensures var before := BatchEffect(s, env, urls[..k], resolution, save);
      var whole := BatchEffect(s, env, urls, resolution, save);
      && whole.results[..k] == before.results
      && whole.results[k] == Entry(LinkEffect(before.state, env, urls[k], resolution, save).result)
      && Extends(before.state, LinkEffect(before.state, env, urls[k], resolution, save).state)
      && Extends(LinkEffect(before.state, env, urls[k], resolution, save).state, whole.state)
  {
    assert urls == urls[..k] + urls[k..];
    BatchAppend(s, env, urls[..k], urls[k..], resolution, save);
    var before := BatchEffect(s, env, urls[..k], resolution, save);
    var one := LinkEffect(before.state, env, urls[k], resolution, save);
    assert urls[k..][0] == urls[k];
    var rest := BatchEffect(one.state, env, urls[k..][1..], resolution, save);
    assert BatchEffect(before.state, env, urls[k..], resolution, save) == Batch(rest.state, [Entry(one.result)] + rest.results);
  }

  /** The record one link adds to the batch. */
  method DownloadOne(disk: Disk, env: Env, url: string, resolution: string, save: string) returns (d: DownloadResult)
    requires ParseI32(Qn(EffectiveResolution(resolution))).Some?
    requires LinkUsable(env, url, EffectiveResolution(resolution))
    modifies disk
    ensures var e := LinkEffect(old(disk.Snapshot()), env, url, resolution, save);
      disk.Snapshot() == e.state && d == Entry(e.result)
  {
    var one, _ := DownloadVideoWithTx(disk, env, url, resolution, save);
    d := Entry(one);
  }

  /** `download_videos`: the links one after another, each finished before the next starts,
      and exactly one record per link, in the links' order. */
  method DownloadVideos(disk: Disk, env: Env, urls: seq<string>, resolution: string, save: string)
    returns (results: seq<DownloadResult>)
    requires ParseI32(Qn(EffectiveResolution(resolution))).Some?
    requires AllUsable(env, urls, EffectiveResolution(resolution))
    modifies disk
    ensures Batch(disk.Snapshot(), results) == BatchEffect(old(disk.Snapshot()), env, urls, resolution, save)
    ensures |results| == |urls|
    ensures forall k :: 0 <= k < |urls| ==> EntryFor(urls[k], results[k])
  {
    ghost var s0 := disk.Snapshot();
    results := [];
    var i := 0;
    while i < |urls|
      invariant 0 <= i <= |urls|
      invariant AllUsable(env, urls[i..], EffectiveResolution(resolution))
      invariant BatchEffect(s0, env, urls, resolution, save) ==
        var rest := BatchEffect(disk.Snapshot(), env, urls[i..], resolution, save);
        Batch(rest.state, results + rest.results)
    {
      ghost var before := disk.Snapshot();
      BatchNext(before, env, urls[i..], resolution, save, results);
      assert urls[i..][0] == urls[i] && urls[i..][1..] == urls[i + 1..];
      var one := DownloadOne(disk, env, urls[i], resolution, save);
      results := results + [one];
      i := i + 1;
    }
    assert urls[i..] == [];
    BatchEntries(s0, env, urls, resolution, save);
  }

  /** One turn of the batch loop: the first link still to do is run on the current disk and
      its record joins those before it. */
  lemma BatchNext(s: DiskState, env: Env, todo: seq<string>, resolution: string, save: string, done: seq<DownloadResult>)
    requires ParseI32(Qn(EffectiveResolution(resolution))).Some?
    requires todo != [] && AllUsable(env, todo, EffectiveResolution(resolution))
    ensures LinkUsable(env, todo[0], EffectiveResolution(resolution)) && AllUsable(env, todo[1..], EffectiveResolution(resolution))
    ensures var one := LinkEffect(s, env, todo[0], resolution, save);
      var rest := BatchEffect(one.state, env, todo[1..], resolution, save);
      var whole := BatchEffect(s, env, todo, resolution, save);
      Batch(whole.state, done + whole.results) == Batch(rest.state, (done + [Entry(one.result)]) + rest.results)
  {
    var one := LinkEffect(s, env, todo[0], resolution, save);
    var rest := BatchEffect(one.state, env, todo[1..], resolution, save);
    Text.AppendCons(done, Entry(one.result), rest.results);
  }

  /** `get_video_info`: parse the link, then read the title and cover from its path; each
      failure is reported with its own prefix. */
  function GetVideoInfo(env: Env, url: string): (r: Result<VideoInfo>)
    requires GetEpidSeason(url).Ok? ==>
      var v := GetEpidSeason(url).value;
      && (RouteOf(v) != NoRoute ==> CookieUsable(env.cookieFile))
      && (v.epId != "" && env.season(v.epId, v.seasonId).Ok? ==> ParseI64(v.epId).Some?)
    ensures GetEpidSeason(url).Err? ==> r == Err(ParseFailed + GetEpidSeason(url).error)
    ensures GetEpidSeason(url).Ok? ==>
      var tp := GetTitlePic(env, GetEpidSeason(url).value);
      && (tp.Err? ==> r == Err(InfoFailed + tp.error))
      && (tp.Ok? ==> r == Ok(VideoInfo(tp.value.0, tp.value.1)))
  {
    var video := GetEpidSeason(url);
    if video.Err? then Err(ParseFailed + video.error)
    else
      var tp := GetTitlePic(env, video.value);
      if tp.Err? then Err(InfoFailed + tp.error)
      else Ok(VideoInfo(tp.value.0, tp.value.1))
  }
}
