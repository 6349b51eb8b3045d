/** The `dash` part of a play-url response and the choice of one video and one audio stream
    from it, shared by the episode and the short-video download paths. */
module Tracks {
  import opened Wrappers
  import opened Numbers

  /** One entry of `dash.video`. A field is None when the JSON lacks it or holds another type. */
  datatype VideoStream = VideoStream(id: Option<int>, bandwidth: Option<int>, baseUrl: Option<string>)

  /** One entry of `dash.audio`. */
  datatype AudioStream = AudioStream(size: Option<int>, bandwidth: Option<int>, baseUrl: Option<string>)

  /** The `dash` object: a list is None when the JSON value there is not an array. */
  datatype Manifest = Manifest(video: Option<seq<VideoStream>>, audio: Option<seq<AudioStream>>)

  /** The chosen video URL, audio URL and the quality code read back from the chosen video. */
  datatype Selection = Selection(videoUrl: string, audioUrl: string, qn: int)

  /** Which audio field ranks the audio streams. */
  datatype AudioMetric = BySize | ByBandwidth

  const MissingVideoArray: string := "Missing or invalid video array in response JSON"
  const MissingAudioArray: string := "Missing or invalid audio array in response JSON"
  const NoAudioStreams: string := "No valid audio streams found"

  /** Entry i is the one `Iterator::max_by_key` returns among the eligible entries: it has the
      largest key, and no later eligible entry has a key as large (the last maximum wins). */
  predicate IsLastMax(keys: seq<int>, eligible: seq<bool>, i: int)
    requires |keys| == |eligible|
  {
    && 0 <= i < |keys|
    && eligible[i]
    && (forall k :: 0 <= k < |keys| && eligible[k] ==> keys[k] <= keys[i])
    && (forall k :: i < k < |keys| && eligible[k] ==> keys[k] < keys[i])
  }

  /** `filter(eligible).max_by_key(key)` over an enumerated list: the position of the last
      eligible entry with the largest key, None when no entry is eligible. */
  function LastMaxBy(keys: seq<int>, eligible: seq<bool>): (r: Option<nat>)
    requires |keys| == |eligible|
    ensures r.None? <==> forall k :: 0 <= k < |keys| ==> !eligible[k]
    ensures r.Some? ==> IsLastMax(keys, eligible, r.value)
  {
    if keys == [] then None
    else
      var n := |keys| - 1;
      var p := LastMaxBy(keys[..n], eligible[..n]);
      if !eligible[n] then p
      else if p.None? || keys[p.value] <= keys[n] then Some(n)
      else p
  }

  /** At most one entry is the last maximum. */
  lemma LastMaxIsUnique(keys: seq<int>, eligible: seq<bool>, i: int, j: int)
    requires |keys| == |eligible|
    requires IsLastMax(keys, eligible, i) && IsLastMax(keys, eligible, j)
    ensures i == j
  {
  }

  /** `v["bandwidth"].as_u64().unwrap_or(0)` */
  function BandwidthKey(v: VideoStream): int { AsU64(v.bandwidth).GetOr(0) }

  /** `a["size"].as_i64().unwrap_or(0)` or `a["bandwidth"].as_i64().unwrap_or(0)` */
  function AudioKey(a: AudioStream, metric: AudioMetric): int
  {
    match metric
    case BySize => AsI64(a.size).GetOr(0)
    case ByBandwidth => AsI64(a.bandwidth).GetOr(0)
  }

  function VideoKeys(vs: seq<VideoStream>): (keys: seq<int>)
    ensures |keys| == |vs| && forall k :: 0 <= k < |vs| ==> keys[k] == BandwidthKey(vs[k])
  {
    seq(|vs|, k requires 0 <= k < |vs| => BandwidthKey(vs[k]))
  }

  /** `v["id"] == qn`: the JSON number equals the requested code. */
  function Matching(vs: seq<VideoStream>, qn: int): (m: seq<bool>)
    ensures |m| == |vs| && forall k :: 0 <= k < |vs| ==> m[k] == (AsI64(vs[k].id) == Some(qn))
  {
    seq(|vs|, k requires 0 <= k < |vs| => AsI64(vs[k].id) == Some(qn))
  }

  function AudioKeys(audios: seq<AudioStream>, metric: AudioMetric): (keys: seq<int>)
    ensures |keys| == |audios| && forall k :: 0 <= k < |audios| ==> keys[k] == AudioKey(audios[k], metric)
  {
    seq(|audios|, k requires 0 <= k < |audios| => AudioKey(audios[k], metric))
  }

  function AllOf(n: nat): (m: seq<bool>)
    ensures |m| == n && forall k :: 0 <= k < n ==> m[k]
  {
    seq(n, k => true)
  }

  predicate HasMatch(vs: seq<VideoStream>, qn: int)
  {
    exists k :: 0 <= k < |vs| && AsI64(vs[k].id) == Some(qn)
  }

  /** The video position: the last highest-bandwidth stream among those whose id is the
      requested code, or the fixed `fallback` position when none is. */
  function VideoIndex(vs: seq<VideoStream>, qn: int, fallback: nat): (i: nat)
    ensures HasMatch(vs, qn) ==> IsLastMax(VideoKeys(vs), Matching(vs, qn), i) && vs[i].id == Some(qn)
    ensures !HasMatch(vs, qn) ==> i == fallback
  {
    match LastMaxBy(VideoKeys(vs), Matching(vs, qn))
    case Some(i) => i
    case None => fallback
  }

  /** The audio position: the last stream with the largest metric. */
  function AudioIndex(audios: seq<AudioStream>, metric: AudioMetric): (i: nat)
    requires |audios| > 0
    ensures IsLastMax(AudioKeys(audios, metric), AllOf(|audios|), i)
  {
    LastMaxBy(AudioKeys(audios, metric), AllOf(|audios|)).value
  }

  /** `list[i]["baseUrl"].as_str().unwrap_or("")`: indexing past the end gives JSON null. */
  function VideoUrlAt(vs: seq<VideoStream>, i: nat): string
  {
    if i < |vs| then vs[i].baseUrl.GetOr("") else ""
  }

  function AudioUrlAt(audios: seq<AudioStream>, i: nat): string
  {
    if i < |audios| then audios[i].baseUrl.GetOr("") else ""
  }

  /** `list[i]["id"].as_i64().unwrap_or(0) as i32` */
  function VideoIdAt(vs: seq<VideoStream>, i: nat): int
  {
    if i < |vs| then AsI32(AsI64(vs[i].id).GetOr(0)) else 0
  }

  /** The selection both download paths perform; they differ in the fallback position and the
      audio metric. The audio choice ignores the requested code. */
  function SelectTracks(m: Manifest, qn: int, fallback: nat, metric: AudioMetric): (r: Result<Selection>)
    requires IsI32(qn)
    ensures m.video.None? ==> r == Err(MissingVideoArray)
    ensures m.video.Some? && m.audio.None? ==> r == Err(MissingAudioArray)
    ensures m.video.Some? && m.audio.Some? && m.audio.value == [] ==> r == Err(NoAudioStreams)
    ensures r.Ok? <==> m.video.Some? && m.audio.Some? && m.audio.value != []
    ensures r.Ok? ==> r.value.audioUrl == AudioUrlAt(m.audio.value, AudioIndex(m.audio.value, metric))
    ensures r.Ok? ==> r.value.videoUrl == VideoUrlAt(m.video.value, VideoIndex(m.video.value, qn, fallback))
    ensures r.Ok? && HasMatch(m.video.value, qn) ==> r.value.qn == qn
    ensures r.Ok? && !HasMatch(m.video.value, qn) ==> r.value.qn == VideoIdAt(m.video.value, fallback)
    ensures r.Ok? && !HasMatch(m.video.value, qn) && fallback >= |m.video.value| ==> r.value.videoUrl == "" && r.value.qn == 0
  {
    if m.video.None? then Err(MissingVideoArray)
    else
      var vi := VideoIndex(m.video.value, qn, fallback);
      if m.audio.None? then Err(MissingAudioArray)
      else match LastMaxBy(AudioKeys(m.audio.value, metric), AllOf(|m.audio.value|))
        case None => Err(NoAudioStreams)
        case Some(ai) => Ok(Selection(VideoUrlAt(m.video.value, vi), AudioUrlAt(m.audio.value, ai), VideoIdAt(m.video.value, vi)))
  }

  /** The resolved code differs from the request only when no stream matched. A non-matching
      stream's id can still wrap to the request under the cast to i32, so that case needs the
      id to fit. */
  lemma FallbackIsVisible(m: Manifest, qn: int, fallback: nat, metric: AudioMetric)
    requires IsI32(qn) && qn != 0
    requires SelectTracks(m, qn, fallback, metric).Ok?
    requires fallback < |m.video.value| ==> m.video.value[fallback].id.None? || IsI32(m.video.value[fallback].id.value)
    ensures SelectTracks(m, qn, fallback, metric).value.qn == qn <==> HasMatch(m.video.value, qn)
  {
  }
}
