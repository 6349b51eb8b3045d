/** What the download pipeline touches outside itself: the files under the save directory and
    the history log (a `Disk` the pipeline updates in place), and the answers of the network,
    the clock and the muxer (an `Env` of parsed responses and outcomes, given as inputs). */
module World {
  import opened Wrappers
  import opened Tracks
  import opened RefreshCookie

  /** One entry of `result.episodes` in the season-info response. */
  datatype Episode = Episode(epId: Option<int>, shareCopy: Option<string>, cover: Option<string>)

  /** The season-info response: `result.episodes` (None when not an array), `result.title`
      and `result.cover`. */
  datatype SeasonInfo = SeasonInfo(episodes: Option<seq<Episode>>, title: Option<string>, cover: Option<string>)

  /** The short-video view response: `data.cid`, `data.title` and `data.pic`. */
  datatype BvView = BvView(cid: Option<int>, title: Option<string>, pic: Option<string>)

  /** How the transfer of one stream ends: the request fails before the file is created (the
      caller's context message is what is reported), the body fails after the file was created
      (a partial file stays), or it completes. */
  datatype Transfer = RequestFailed | StreamFailed(error: string) | Completed

  /** What a transfer that did not complete reports, given the context message the caller puts
      on a failed request. */
  function TransferError(t: Transfer, sendContext: string): string
  {
    if t.StreamFailed? then t.error else sendContext
  }

  /** How a muxer run ends: it could not be started, or it exited with this status. */
  datatype MuxOutcome = SpawnFailed | Exited(success: bool)

  /** An action with an outside effect, in the order the pipeline performs them. */
  datatype Op = Download(url: string, path: string) | Mux(video: string, audio: string, output: string)

  /** The answers the outside world gives: the cookie file, the current time as the history
      log prints it, the parsed responses of the season-info (by ep id and season id), episode
      play-url (by ep id), view (by BV id) and short-video play-url (by BV id and cid)
      endpoints, the transfer of each stream URL and the muxer run for each output path. */
  datatype Env = Env(
    cookieFile: CookieFile,
    now: string,
    season: (string, string) -> Result<SeasonInfo>,
    playurl: string -> Result<Manifest>,
    view: string -> Result<BvView>,
    bvPlayurl: (string, string) -> Result<Manifest>,
    transfer: string -> Transfer,
    mux: string -> MuxOutcome)

  /** The four parts of the disk as a value, to say what a stage leaves behind. */
  datatype DiskState = DiskState(files: set<string>, dirs: set<string>, history: seq<string>, trace: seq<Op>)

  /** The disk a stage leaves and what it returns. */
  datatype Step<T> = Step(state: DiskState, result: Result<T>)

  /** `t` only adds to `s`: no history line or action is undone and no directory removed. */
  predicate Extends(s: DiskState, t: DiskState)
  {
    s.history <= t.history && s.trace <= t.trace && s.dirs <= t.dirs
  }

  /** The file system as the pipeline sees it. */
  class Disk {
    /** Paths of the files that exist. */
    var files: set<string>
    /** Paths of the directories that exist. */
    var dirs: set<string>
    /** The lines of `dat.log`. */
    var history: seq<string>
    /** The downloads and muxer runs so far, oldest first. */
    var trace: seq<Op>

    /** The current contents, as a value. */
    function Snapshot(): DiskState
      reads this
    {
      DiskState(files, dirs, history, trace)
    }

    constructor (files0: set<string>, dirs0: set<string>, history0: seq<string>)
      ensures files == files0 && dirs == dirs0 && history == history0 && trace == []
    {
      files, dirs, history, trace := files0, dirs0, history0, [];
    }

    /** Appending to `dat.log`, creating it first when missing: either way one more line. */
    method AppendHistory(line: string)
      modifies this
      ensures history == old(history) + [line]
      ensures files == old(files) && dirs == old(dirs) && trace == old(trace)
    {
      history := history + [line];
    }

    /** `if !exists { create_dir_all }` */
    method EnsureDir(path: string)
      modifies this
      ensures dirs == old(dirs) + {path}
      ensures files == old(files) && history == old(history) && trace == old(trace)
    {
      if path !in dirs {
        dirs := dirs + {path};
      }
    }

    /** Streaming one URL to a file (`down_from_url`, `down_file_url`): the file exists unless
        the request itself failed, and only a completed body is success. */
    method Fetch(url: string, path: string, t: Transfer, sendContext: string) returns (r: Result<()>)
      modifies this
      ensures trace == old(trace) + [Download(url, path)]
      ensures files == if t.RequestFailed? then old(files) else old(files) + {path}
      ensures r.Ok? <==> t.Completed?
      ensures !t.Completed? ==> r.error == TransferError(t, sendContext)
      ensures dirs == old(dirs) && history == old(history)
    {
      trace := trace + [Download(url, path)];
      match t
      case RequestFailed =>
        r := Err(sendContext);
      case StreamFailed(e) =>
        files := files + {path};
        r := Err(e);
      case Completed =>
        files := files + {path};
        r := Ok(());
    }

    /** One muxer run that was started: on success the output file exists. */
    method RunMuxer(video: string, audio: string, output: string, success: bool)
      modifies this
      ensures trace == old(trace) + [Mux(video, audio, output)]
      ensures files == if success then old(files) + {output} else old(files)
      ensures dirs == old(dirs) && history == old(history)
    {
      trace := trace + [Mux(video, audio, output)];
      if success {
        files := files + {output};
      }
    }

    /** `remove_file`: fails when the file does not exist. */
    method RemoveFile(path: string) returns (removed: bool)
      modifies this
      ensures removed == (path in old(files))
      ensures files == old(files) - {path}
      ensures dirs == old(dirs) && history == old(history) && trace == old(trace)
    {
      removed := path in files;
      files := files - {path};
    }
  }
}
