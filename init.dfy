/** The link classifier and the dispatch to the two download paths: a pasted link becomes an
    episode id, a season id or a BV id, and the non-empty one decides the path. */
module Init {
  import opened Wrappers
  import opened Numbers
  import opened Text
  import opened Resolution
  import opened RefreshCookie
  import opened World
  import opened DownBangumi
  import opened DownBv

  /** The three ids a link can carry; "" where it carries none. */
  datatype Video = Video(epId: string, seasonId: string, bvId: string)

  const NoPathSegment: string := "Failed to extract the last part of the URL path"
  const NoValidId: string := "URL does not contain valid episode, season ID or BV ID"
  const NoVideoId: string := "No valid video ID found"

  /** At most one of the three ids is set. */
  predicate AtMostOneId(v: Video)
  {
    && (v.epId != "" ==> v.seasonId == "" && v.bvId == "")
    && (v.seasonId != "" ==> v.bvId == "")
  }

  /** The position of the last non-empty piece. */
  function LastNonEmpty(parts: seq<string>): (r: Option<nat>)
    ensures r.Some? ==> r.value < |parts| && parts[r.value] != []
    ensures r.Some? ==> forall j :: r.value < j < |parts| ==> parts[j] == []
    ensures r.None? ==> forall j :: 0 <= j < |parts| ==> parts[j] == []
  {
    if parts == [] then None
    else if parts[|parts| - 1] != [] then Some(|parts| - 1)
    else LastNonEmpty(parts[..|parts| - 1])
  }

  /** The '/'-separated pieces of the link's path: the trimmed link up to its first '?'. */
  function PathSegments(url: string): (parts: seq<string>)
    ensures |parts| > 0
    ensures forall k :: 0 <= k < |parts| ==> '/' !in parts[k] && '?' !in parts[k]
  {
    var path := BeforeFirst(Trim(url), '?');
    var parts := Split(path, '/');
    SplitKeepsAbsent(path, '/', '?');
    parts
  }

  /** The id segment by its prefix, tested in the order ep, ss, BV, bv. */
  function ClassifyId(id: string): (r: Result<Video>)
    ensures r.Ok? <==> StartsWith(id, "ep") || StartsWith(id, "ss") || StartsWith(id, "BV") || StartsWith(id, "bv")
    ensures r.Err? ==> r.error == NoValidId
    ensures r.Ok? ==> AtMostOneId(r.value)
    ensures StartsWith(id, "ep") ==> r == Ok(Video(TrimStartMatches(id, "ep"), "", ""))
    ensures !StartsWith(id, "ep") && StartsWith(id, "ss") ==> r == Ok(Video("", TrimStartMatches(id, "ss"), ""))
    ensures !StartsWith(id, "ep") && !StartsWith(id, "ss") && StartsWith(id, "BV") ==> r == Ok(Video("", "", id))
    ensures !StartsWith(id, "ep") && !StartsWith(id, "ss") && !StartsWith(id, "BV") && StartsWith(id, "bv") ==>
      r == Ok(Video("", "", "BV" + TrimStartMatches(id, "bv")))
    ensures r.Ok? && r.value.bvId != "" ==> StartsWith(r.value.bvId, "BV")
  {
    if StartsWith(id, "ep") then Ok(Video(TrimStartMatches(id, "ep"), "", ""))
    else if StartsWith(id, "ss") then Ok(Video("", TrimStartMatches(id, "ss"), ""))
    else if StartsWith(id, "BV") then Ok(Video("", "", id))
    else if StartsWith(id, "bv") then
      var bv := "BV" + TrimStartMatches(id, "bv");
      assert bv[..2] == "BV";
      Ok(Video("", "", bv))
    else Err(NoValidId)
  }

  /** `get_epid_season`: the last non-empty path segment, classified by its prefix. */
  function GetEpidSeason(url: string): (r: Result<Video>)
    ensures r == Err(NoPathSegment) <==> LastNonEmpty(PathSegments(url)).None?
    ensures LastNonEmpty(PathSegments(url)).Some? ==>
      r == ClassifyId(PathSegments(url)[LastNonEmpty(PathSegments(url)).value])
    ensures r.Ok? ==> AtMostOneId(r.value)
  {
    var parts := PathSegments(url);
    match LastNonEmpty(parts)
    case None => Err(NoPathSegment)
    case Some(i) => ClassifyId(parts[i])
  }

  /** An "ep" segment followed by digits gives exactly those digits as the episode id. */
  lemma EpDigits(digits: string)
    requires AllDigits(digits)
    ensures ClassifyId("ep" + digits) == Ok(Video(digits, "", ""))
  {
    var id := "ep" + digits;
    assert id[..2] == "ep" && id[2..] == digits;
    assert digits == [] || IsDigit(digits[0]);
    assert StartsWith(id, "ep");
    assert TrimStartMatches(digits, "ep") == digits;
    assert TrimStartMatches(id, "ep") == TrimStartMatches(digits, "ep");
  }

  /** A lower-case "bv" prefix is rewritten to upper case, keeping the rest. */
  lemma LowerCaseBv(rest: string)
    requires !StartsWith(rest, "bv")
    ensures ClassifyId("bv" + rest) == Ok(Video("", "", "BV" + rest))
  {
    var id := "bv" + rest;
    assert id[..2] == "bv" && id[2..] == rest;
    assert !StartsWith(id, "ep") && !StartsWith(id, "ss") && !StartsWith(id, "BV") by {
      assert id[0] == 'b' && id[1] == 'v';
    }
    assert StartsWith(id, "bv");
    assert TrimStartMatches(rest, "bv") == rest;
    assert TrimStartMatches(id, "bv") == TrimStartMatches(rest, "bv");
  }

  /** What an id segment keeps after its prefix: the segment is copies of the prefix followed
      by the id, so the ids never start with the prefix they were found under. */
  lemma PrefixCopiesRemoved(id: string)
    requires ClassifyId(id).Ok?
    ensures var v := ClassifyId(id).value;
      && (StartsWith(id, "ep") ==> id == Repeat("ep", LeadingCopies(id, "ep")) + v.epId && !StartsWith(v.epId, "ep"))
      && (!StartsWith(id, "ep") && StartsWith(id, "ss") ==>
            id == Repeat("ss", LeadingCopies(id, "ss")) + v.seasonId && !StartsWith(v.seasonId, "ss"))
  {
    TrimStartMatchesRemovesCopies(id, "ep");
    TrimStartMatchesRemovesCopies(id, "ss");
  }

  /** A segment that is only "ep" is accepted but carries no id at all, so the dispatch
      that follows finds no id. */
  lemma BareEpPrefix()
    ensures ClassifyId("ep") == Ok(Video("", "", ""))
    ensures RouteOf(ClassifyId("ep").value) == NoRoute
  {
    assert StartsWith("ep", "ep") && "ep"[2..] == [];
  }

  /** The way `choose_download_method` and `get_title_pic` pick a path. */
  datatype Route = ToBangumi | ToBv | NoRoute

  function RouteOf(v: Video): (route: Route)
    ensures route == ToBangumi <==> v.epId != "" || v.seasonId != ""
    ensures route == ToBv <==> v.epId == "" && v.seasonId == "" && v.bvId != ""
  {
    if v.epId != "" || v.seasonId != "" then ToBangumi
    else if v.bvId != "" then ToBv
    else NoRoute
  }

  /** What the path a link leads to needs of the answers so that no `unwrap` panics. */
  predicate RouteUsable(env: Env, v: Video, rsl: string)
    requires ParseI32(Qn(rsl)).Some?
  {
    && (RouteOf(v) != NoRoute ==> CookieUsable(env.cookieFile))
    && (RouteOf(v) == ToBangumi ==> BangumiInputsUsable(env, v.epId, v.seasonId, rsl))
  }

  /** What `choose_download_method` leaves on the disk and returns: the episode path (whose
      title is ""), the BV path (its title), or an error when no id is set. */
  function ChooseEffect(s: DiskState, env: Env, video: Video, rsl: string, save: string): (out: Step<string>)
    requires ParseI32(Qn(rsl)).Some?
    requires RouteUsable(env, video, rsl)
    ensures Extends(s, out.state)
  {
    match RouteOf(video)
    case ToBangumi =>
      var b := DownloadBangumiEffect(s, env, video.epId, video.seasonId, rsl, save);
      Step(b.state, if b.result.Ok? then Ok("") else Err(b.result.error))
    case ToBv => BvDownMainEffect(s, env, video.bvId, rsl, save)
    case NoRoute => Step(s, Err(NoVideoId))
  }

  /** `choose_download_method`: the episode path, the BV path, or an error when no id is set.
      The episode path reports "" as its title and passes its error on unchanged. */
  method ChooseDownloadMethod(disk: Disk, env: Env, video: Video, rsl: string, save: string) returns (r: Result<string>)
    requires ParseI32(Qn(rsl)).Some?
    requires RouteUsable(env, video, rsl)
    modifies disk
    ensures Step(disk.Snapshot(), r) == ChooseEffect(old(disk.Snapshot()), env, video, rsl, save)
    ensures RouteOf(video) == NoRoute ==> r == Err(NoVideoId) && disk.Snapshot() == old(disk.Snapshot())
    ensures RouteOf(video) == ToBangumi ==>
      var b := DownloadBangumiEffect(old(disk.Snapshot()), env, video.epId, video.seasonId, rsl, save);
      && disk.Snapshot() == b.state
      && (r.Ok? <==> b.result.Ok?)
      && (r.Ok? ==> r.value == "")
      && (r.Err? ==> r.error == b.result.error)
    ensures RouteOf(video) == ToBv ==>
      Step(disk.Snapshot(), r) == BvDownMainEffect(old(disk.Snapshot()), env, video.bvId, rsl, save)
    ensures RouteOf(video) != NoRoute && ReadCookieOrNot(env.cookieFile).Err? ==>
      r == Err(ReadCookieOrNot(env.cookieFile).error)
    ensures RouteOf(video) == ToBv && r.Ok? ==>
      env.view(video.bvId).Ok? && r.value == GetBvCidTitle(video.bvId, env.view(video.bvId).value).title
  {
    match RouteOf(video)
    case ToBangumi =>
      var done := DownloadBangumi(disk, env, video.epId, video.seasonId, rsl, save);
      if done.Err? {
        return Err(done.error);
      }
      r := Ok("");
    case ToBv =>
      r := BvDownMain(disk, env, video.bvId, rsl, save);
    case NoRoute =>
      r := Err(NoVideoId);
  }

  /** `get_title_pic`: the title and cover from the path the ids select. */
  function GetTitlePic(env: Env, video: Video): (r: Result<(string, string)>)
    requires RouteOf(video) != NoRoute ==> CookieUsable(env.cookieFile)
    requires video.epId != "" && env.season(video.epId, video.seasonId).Ok? ==> ParseI64(video.epId).Some?
    ensures RouteOf(video) == NoRoute ==> r == Err(NoVideoId)
    ensures RouteOf(video) == ToBangumi ==> r == BangumiTitle(env, video.epId, video.seasonId)
    ensures RouteOf(video) == ToBv ==> r == BvTitle(env, video.bvId)
    ensures r.Ok? ==> forall k :: 0 <= k < |r.value.0| ==> !IsForbidden(r.value.0[k])
  {
    match RouteOf(video)
    case ToBangumi => BangumiTitle(env, video.epId, video.seasonId)
    case ToBv => BvTitle(env, video.bvId)
    case NoRoute => Err(NoVideoId)
  }
}
