# A verified model of the bilidown downloader core

bilidown is a desktop downloader for Bilibili videos, built with Tauri. Its backend is written in Rust and its window in JavaScript. The user pastes links to episodes of a series ("bangumi", ids `ep…`/`ss…`) or to short videos (ids `BV…`) and picks a quality label. The program then:

- classifies each link by its last path segment;
- asks the site for the play-url manifest;
- chooses one video and one audio stream;
- names the file `"<title> <label>"`;
- appends a line to the history log `dat.log`;
- downloads the two streams unless the `.mp4` already exists;
- merges them with `ffmpeg`, removing both intermediate files only when the muxer succeeds.

A batch of links gives one result record per link, in order. The session cookie is obtained by a QR-code login that polls at most 60 times, three seconds apart. The window's theme is 'auto', 'light' or 'dark'; it is kept in local storage and follows the system when set to 'auto'.

The model is written in Dafny. There is one module per source file, plus a few helper modules:

- `Wrappers`: Option and Result.
- `Numbers`: Rust's `as i32`, `as_i64`, `as_u64`, `to_string` and `parse`.
- `Text`: `trim`, `split`, `starts_with`, `trim_start_matches` and `replace`.
- `Tracks`: the manifest records and the stream choice shared by both download paths.
- `World`: the environment and the disk.

Everything the program learns from outside is a parameter:

- network answers, already parsed into records;
- the clock string;
- the muxer's outcome;
- the answer to the i-th login poll;
- `urlencoding::encode`.

The `Env` record holds these as functions. The filesystem is the `World.Disk` class:

- `files`: the set of existing files;
- `dirs`: the set of existing directories;
- `history`: the lines of `dat.log`;
- `trace`: the ordered downloads and muxer runs.

Its methods change these fields in place.

The state-changing code (the download stages, the season loop, the batch loop, the poll loop and `save_cookie`'s insert loop) is modelled as methods proved against specification functions:

- `DownBangumi.DownloadEffect` and `DownBangumi.MergeEffect` for the download and merge stages;
- `DownBangumi.DownFileBangumiEffect`, `DownBangumi.DownSeasonEffect`, `DownBangumi.SeasonEffect` and `DownBangumi.DownloadBangumiEffect` for the episode path and its season loop;
- `DownBv.DownFileBvEffect` and `DownBv.BvDownMainEffect` for the BV path;
- `Init.ChooseEffect` for the dispatch;
- `Lib.LinkEffect` for one link and `Lib.BatchEffect` for the batch loop;
- `QrcodeLogin.PollFrom` for the poll loop;
- `QrcodeLogin.CookieMap` for `save_cookie`.

Each of these takes the disk as a value, a `World.DiskState`, and returns the new disk with the result. Every method that changes the disk states that its new disk and its result are exactly what its specification function gives for the old disk.

The theme code is a `Theme.Page` class: its storage, `matchMedia`, document attributes and handlers are fields.

A Rust `anyhow` error is modelled by the text it displays, its outermost context message. An `unwrap()` that can panic on a well-formed answer becomes a precondition.

## Model

| member | source | states |
|---|---|---|
| Resolution.Qn | src-tauri/src/resolution.rs:3-18 | each of the eight labels maps to its code (HDR 125, 4K 120, 1080P+ 112, 1080P60 116, 1080P 80, 720P 64, 480P 32, 360P 16); any other string maps to "" |
| Resolution.Fnval | src-tauri/src/resolution.rs:20-23 | "80" for HDR, "144" for 4K, "16" for every other string |
| Resolution.Rsl | src-tauri/src/resolution.rs:25-40 | each of the eight codes maps to its label; any other string maps to "" |
| Resolution.RslQn | src-tauri/src/resolution.rs:3-40 | `rsl(qn(l)) == l` for each of the eight labels; `rsl(qn(s)) == ""` otherwise |
| Resolution.QnRsl | src-tauri/src/resolution.rs:3-40 | `qn(rsl(c)) == c` for each of the eight codes |
| Resolution.QnInjective | src-tauri/src/resolution.rs:4-13 | two labels with the same code are the same label |
| Resolution.QnParses | src-tauri/src/resolution.rs:3-18 | `qn(l).parse::<i32>()` succeeds exactly when l is one of the eight labels, giving the code's number |
| Resolution.RslOfNumber | src-tauri/src/resolution.rs:25-40 | `rsl(n.to_string())` is a label exactly when n is one of the eight code numbers, and "" otherwise (e.g. for 0) |
| Numbers.ParseToDecimal | src-tauri/src/down_bv.rs:80-83 | parsing the decimal text an integer prints gives that integer back, for every integer in the parsed type's range |
| Tracks.LastMaxBy | src-tauri/src/down_bangumi.rs:79-97 | `filter(..).max_by_key(..)` returns the last eligible position with the largest key, or none when nothing is eligible |
| Tracks.LastMaxIsUnique | src-tauri/src/down_bangumi.rs:79-97 | at most one position is the last maximum |
| Tracks.SelectTracks | src-tauri/src/down_bangumi.rs:76-112 | a missing video or audio array, or an empty audio array, is an error. The video is the last highest-bandwidth stream among those whose id equals the request, else the fallback position. The audio is the last stream with the largest metric. URL and code are read from the chosen entries ("" and 0 when absent) |
| Tracks.FallbackIsVisible | src-tauri/src/down_bangumi.rs:99-111 | the returned code differs from the request only when no stream matched; a matched choice returns the requested code |
| DownBangumi.GetFileUrl | src-tauri/src/down_bangumi.rs:76-112 | the selection with fallback position 0 and audio ranked by `size`; with no match, the first stream's URL and code |
| DownBangumi.FallbackFrom1080P60To1080P | src-tauri/src/down_bangumi.rs:154-165 | asking 1080P60 of a manifest with only code-80 streams succeeds: the first stream is taken and the file is labelled 1080P |
| DownBangumi.RemovePunctuation | src-tauri/src/down_bangumi.rs:316-322 | the result has none of `< > : " / \ \| ? *` and is no longer than the input |
| DownBangumi.RemovePunctuationKeepsAllowed | src-tauri/src/down_bangumi.rs:316-322 | every allowed character occurs in the result as often as in the input |
| DownBangumi.RemovePunctuationKeepsClean | src-tauri/src/down_bangumi.rs:316-322 | a string without forbidden characters is unchanged |
| DownBangumi.RemovePunctuationIdempotent | src-tauri/src/down_bangumi.rs:316-322 | sanitising twice equals sanitising once |
| DownBangumi.RemovePunctuationAppend | src-tauri/src/down_bangumi.rs:316-322 | the filter distributes over concatenation, so kept characters keep their order |
| DownBangumi.FirstEpisode | src-tauri/src/down_bangumi.rs:287-291 | the position of the first episode whose `ep_id` (0 when missing) equals the id; none exactly when no episode has it |
| DownBangumi.EpisodeFor | src-tauri/src/down_bangumi.rs:286-313 | the first matching episode, else episode 0, else none for a missing or empty list |
| DownBangumi.GetBangumiNameFromJson | src-tauri/src/down_bangumi.rs:286-298 | that episode's `share_copy`, "" when there is no episode or no field |
| DownBangumi.GetBangumiPic | src-tauri/src/down_bangumi.rs:301-313 | that episode's `cover`, "" when there is no episode or no field |
| DownBangumi.PathsDistinct | src-tauri/src/down_bangumi.rs:185-187 | the `_video.m4s`, `_audio.m4s` and `.mp4` paths of a name are three different files |
| DownBangumi.DownloadFollowsPlan | src-tauri/src/down_bangumi.rs:189-202 | the stage appends a prefix of [video download, audio download, merge] to the trace, never another order. An existing output means nothing is done and the result is Ok |
| DownBangumi.SuccessfulMergeCleansUp | src-tauri/src/down_bangumi.rs:249-252 | both streams downloaded and the muxer succeeded: Ok, the output exists and both intermediates are gone |
| DownBangumi.FailedMergeKeepsIntermediates | src-tauri/src/down_bangumi.rs:253-258 | both streams downloaded and the muxer failed: still Ok, both intermediates stay, no output |
| DownBangumi.DownloadIdempotent | src-tauri/src/down_bangumi.rs:189-192 | once the stage has produced the output, running it again changes nothing and runs nothing |
| DownBangumi.ConcatVideoAudio | src-tauri/src/down_bangumi.rs:208-259 | the disk after the merge is `MergeEffect`: skip when the output exists; otherwise the muxer runs and, only on success, both intermediates are removed |
| DownBangumi.DownloadAndMerge | src-tauri/src/down_bangumi.rs:189-202 | the disk and result are `DownloadEffect`: skip, or video then audio then merge, stopping at the first failure |
| DownBangumi.DownFileBangumiEffect | src-tauri/src/down_bangumi.rs:145-205 | the disk only grows: the history, trace and directories are extended, never rewritten. A success logged exactly one history line and a failure at most one |
| DownBangumi.DownFileBangumi | src-tauri/src/down_bangumi.rs:145-205 | a failed stream choice returns its error with the disk untouched. Otherwise one history line `time\tep<id>\t<name>\t\n` is appended, the save directory exists, and the rest is `DownloadEffect` for `"<title> <label>"` |
| DownBangumi.ReadCookieOrNot | src-tauri/src/down_bangumi.rs:324-340 | no file gives the empty credential; a file gives its parsed contents or the parse error |
| DownBangumi.SeasonEpIdParses | src-tauri/src/down_bangumi.rs:381-384 | the ep id the season loop prints parses back to the episode's id, so the episode's own `unwrap` cannot fail |
| DownBangumi.DownSeasonEffect | src-tauri/src/down_bangumi.rs:342-362 | the disk only grows; a success logged exactly one history line and a failure at most one |
| DownBangumi.DownSeason | src-tauri/src/down_bangumi.rs:342-362 | the disk and result are `DownSeasonEffect`: a failed play-url request returns its error with the disk untouched; otherwise `down_file_bangumi` on its answer |
| DownBangumi.SeasonEffect | src-tauri/src/down_bangumi.rs:376-395 | the disk only grows. A loop that gets through from episode i logged exactly one history line per remaining episode; no run logs more |
| DownBangumi.DownloadEpisodes | src-tauri/src/down_bangumi.rs:376-395 | the disk and result are `SeasonEffect` from the first episode. Episodes are tried in list order: the k-th took the disk from the k-th recorded state to the next through `DownSeasonEffect` with the k-th episode's id. Every episode before the last tried succeeded. The result is Ok exactly when all were tried and all succeeded; otherwise it is the last tried one's failure |
| DownBangumi.DownloadBangumiEffect | src-tauri/src/down_bangumi.rs:365-411 | the disk only grows |
| DownBangumi.DownloadBangumi | src-tauri/src/down_bangumi.rs:365-411 | the disk and result are `DownloadBangumiEffect`. A cookie or season-request error is returned before any episode. With a season id, the disk and result are `SeasonEffect` over the answer's episodes; without one, `DownSeasonEffect` of exactly the given episode |
| DownBangumi.BangumiTitle | src-tauri/src/down_bangumi.rs:413-438 | the episode's sanitised name and cover from the season answer; a cookie error or a season-request error is returned as it is |
| DownBv.GetBvCidTitle | src-tauri/src/down_bv.rs:68-95 | the cid as text, "" when missing; the title is `RemovePunctuation` of the view's title, and "no title" when missing |
| DownBv.BvCidRoundTrip | src-tauri/src/down_bv.rs:80-83 | the cid text sent in the play-url query parses back to the view's cid |
| DownBv.GetBvUrl | src-tauri/src/down_bv.rs:97-132 | the selection with fallback position 1 and audio ranked by `bandwidth`; with no match, the second stream's URL and code |
| DownBv.SingleStreamFallbackIsEmpty | src-tauri/src/down_bv.rs:107-131 | one unmatched video stream: the fallback position is past the end, the URL is "" and the code 0 |
| DownBv.BvSelection | src-tauri/src/down_bv.rs:168-176 | a failed choice is swallowed into empty URLs and code 0 |
| DownBv.FailedChoiceNamesWithoutQuality | src-tauri/src/down_bv.rs:176-182 | after a failed choice the file is named `title + " "`, since `rsl("0")` is "" |
| DownBv.DownFileBvEffect | src-tauri/src/down_bv.rs:159-215 | the disk only grows and exactly one history line is logged, whatever the downloads come to |
| DownBv.DownFileBv | src-tauri/src/down_bv.rs:159-215 | one history line `time\t<bv>\t<name>\t\n` is appended and the save directory exists; the files, trace and result are `DownloadEffect` for `"<title> <label>"` |
| DownBv.BvDownMainEffect | src-tauri/src/down_bv.rs:217-246 | the disk only grows; a success logged exactly one history line |
| DownBv.BvDownMain | src-tauri/src/down_bv.rs:217-246 | the disk and result are `BvDownMainEffect`. A cookie, view or play-url failure returns its error with the disk untouched. Otherwise it downloads, and success returns the sanitised title |
| DownBv.BvTitle | src-tauri/src/down_bv.rs:248-272 | the title is `RemovePunctuation` of the view's title ("no title" when missing) and the cover is the view's URL ("no pic" when missing); a cookie error or a failed request is returned as it is |
| DownBv.ShownTitleIsFileTitle | src-tauri/src/down_bv.rs:248-272 | the title shown for a link is the title its file is named after |
| Init.LastNonEmpty | src-tauri/src/init_.rs:16-25 | the last non-empty segment; none exactly when every segment is empty |
| Init.PathSegments | src-tauri/src/init_.rs:14-17 | the trimmed link before its first '?', split at '/'; no segment holds '/' or '?' |
| Init.ClassifyId | src-tauri/src/init_.rs:26-59 | prefixes are tested in the order ep, ss, BV, bv. ep and ss strip every leading copy of the prefix, BV keeps the id, and bv becomes "BV" plus the segment with every leading "bv" removed. Any other prefix is an error. Every Ok result sets at most one id |
| Init.GetEpidSeason | src-tauri/src/init_.rs:13-60 | an error exactly when no segment is non-empty; otherwise the classification of the last non-empty segment |
| Init.EpDigits | src-tauri/src/init_.rs:26-32 | "ep" followed by digits gives exactly those digits as the episode id |
| Init.LowerCaseBv | src-tauri/src/init_.rs:47-54 | a lower-case "bv" id becomes "BV" with the rest kept |
| Init.PrefixCopiesRemoved | src-tauri/src/init_.rs:26-39 | the segment is some copies of the prefix followed by the id, and the id does not start with the prefix |
| Init.BareEpPrefix | src-tauri/src/init_.rs:26-32 | a segment that is only "ep" is accepted with every id empty, so the dispatch finds no id |
| Init.RouteOf | src-tauri/src/init_.rs:62-73 | the episode path exactly when an ep or season id is set; the BV path exactly when only a BV id is set |
| Init.ChooseEffect | src-tauri/src/init_.rs:62-73 | the disk only grows |
| Init.ChooseDownloadMethod | src-tauri/src/init_.rs:62-73 | the disk and result are `ChooseEffect`. No id gives "No valid video ID found" and leaves the disk untouched. The episode path leaves the disk `DownloadBangumiEffect` leaves, returns "" on success and its error unchanged; the BV path is `BvDownMainEffect` and returns the file's title |
| Init.GetTitlePic | src-tauri/src/init_.rs:75-86 | the same three-way dispatch for title and cover; the title never has a forbidden character |
| Lib.GetResolutions | src-tauri/src/lib.rs:46-57 | the eight labels in the order HDR, 4K, 1080P+, 1080P60, 1080P, 720P, 480P, 360P, pairwise distinct |
| Lib.OfferedLabelsAreAccepted | src-tauri/src/lib.rs:46-57 | every offered label is one the download paths parse without panicking |
| Lib.EffectiveResolutionAccepted | src-tauri/src/lib.rs:109-113 | an empty choice becomes "4K" and any offered label passes unchanged; both are accepted |
| Lib.ResultOf | src-tauri/src/lib.rs:115-126 | Ok(t) gives success, "下载完成: " + t and the title t; Err(e) gives failure, "下载失败: " + e and no title |
| Lib.Entry | src-tauri/src/lib.rs:213-220 | a single download's record is kept; a command error becomes a failed record carrying the message |
| Lib.LinkEffect | src-tauri/src/lib.rs:100-127 | the disk only grows, and the record succeeds exactly when it has a title; an unparsable or id-less link fails with its message |
| Lib.DownloadVideoWithTx | src-tauri/src/lib.rs:100-127 | the disk and result are `LinkEffect`. A link that does not parse is the error "解析 URL 失败: …" and leaves the disk untouched. Otherwise the disk is what `ChooseEffect` leaves and the dispatch outcome becomes its record |
| Lib.BatchEffect | src-tauri/src/lib.rs:190-221 | exactly one record per link, and the disk only grows |
| Lib.BatchEntries | src-tauri/src/lib.rs:190-221 | record k is about link k: success exactly when it has a title, and an unparsable or id-less link fails with its message |
| Lib.BatchAppend | src-tauri/src/lib.rs:190-221 | the batch of two lists is the batch of the first, then the batch of the second started on the disk the first left |
| Lib.BatchIsolation | src-tauri/src/lib.rs:190-221 | a failing link does not stop the batch: record k is what link k alone gives on the disk the first k links left, and the first k records do not depend on later links |
| Lib.DownloadVideos | src-tauri/src/lib.rs:153-228 | the disk and records are `BatchEffect`: exactly one record per link, in order, record i belonging to link i. A record succeeds exactly when it has a title. Unparsable and id-less links fail with their messages |
| Lib.GetVideoInfo | src-tauri/src/lib.rs:89-97 | a parse failure is prefixed "解析 URL 失败: " and a lookup failure "获取视频信息失败: "; otherwise the title and cover |
| RefreshCookie.ReadCookie | src-tauri/src/refresh_cookie.rs:68-84 | the stored credential, or the all-empty one when the file is missing |
| RefreshCookie.CreateHeaders | src-tauri/src/refresh_cookie.rs:87-100 | exactly the three headers User-Agent, Referer `https://www.bilibili.com` and Cookie `SESSDATA=<sessdata>` |
| RefreshCookie.HeadersDependOnSessdataOnly | src-tauri/src/refresh_cookie.rs:95-98 | credentials with the same SESSDATA give the same headers, so `bili_jct` and `refresh_token` are never sent |
| RefreshCookie.MissingCookieFileSendsEmptySession | src-tauri/src/refresh_cookie.rs:68-84 | without a cookie file the Cookie header is "SESSDATA=" |
| RefreshCookie.RefreshQuery | src-tauri/src/refresh_cookie.rs:109-110 | the query is exactly `csrf` = `bili_jct` |
| RefreshCookie.RefreshStatusOf | src-tauri/src/refresh_cookie.rs:121-126 | code -1, refresh true and timestamp "0" when absent. The code is `as i32` of the number, wrapping around outside the i32 range and kept inside it; the timestamp is printed in decimal and parses back |
| RefreshCookie.IsNeedRefresh | src-tauri/src/refresh_cookie.rs:103-129 | a failed request or undecodable body is an error; otherwise the decoded status |
| QrcodeLogin.PollFrom | src-tauri/src/qrcode_login.rs:78-113 | the polling stops after at most 60 polls and every earlier answer was pending. With a cookie, the last answer confirmed the login and the cookie is its url + "&refresh_token=" + token. Without one, the address was refused or 60 pending answers ran out the time |
| QrcodeLogin.PollSkipsPending | src-tauri/src/qrcode_login.rs:97-107 | pending answers are skipped: the polling from i ends as the polling from the first non-pending answer |
| QrcodeLogin.LoginAfterWaiting | src-tauri/src/qrcode_login.rs:89-96 | a login confirmed at poll n after only pending answers ends with that login's cookie after n+1 polls |
| QrcodeLogin.TimeoutAfterSixtyPolls | src-tauri/src/qrcode_login.rs:105-112 | sixty pending answers end the polling without a cookie |
| QrcodeLogin.BannedEndsWithoutCookie | src-tauri/src/qrcode_login.rs:100-104 | a refused address ends the polling at once, without a cookie |
| QrcodeLogin.FailureAfterWaiting | src-tauri/src/qrcode_login.rs:78-86 | a request that fails after only pending answers is the polling's error |
| QrcodeLogin.LoginEnd | src-tauri/src/qrcode_login.rs:89-96 | the polling reaching a confirmed login ends at that poll with its cookie, at an end that removes `output.png` |
| QrcodeLogin.TimeoutEnd | src-tauri/src/qrcode_login.rs:105-112 | a pending answer at the sixtieth poll ends the polling without a cookie, at an end that removes `output.png` |
| QrcodeLogin.QueryPieces | src-tauri/src/qrcode_login.rs:131-132 | the pieces between the first and second '?', split at '&'; none holds '&' |
| QrcodeLogin.CookieMap | src-tauri/src/qrcode_login.rs:133-139 | the record's names are exactly the pieces' texts before their first '=' |
| QrcodeLogin.CookieMapLastWins | src-tauri/src/qrcode_login.rs:136-138 | a name holds the encoded value (between first and second '=') of the last piece carrying it |
| QrcodeLogin.SaveCookie | src-tauri/src/qrcode_login.rs:130-144 | the record written is `CookieMap` of the query pieces |
| QrcodeLogin.RefreshTokenSaved | src-tauri/src/qrcode_login.rs:93 | for a confirmed login whose link has one '?', the saved record holds `refresh_token` with the encoded token, cut at its first '=' |
| QrcodeLogin.QrcodePull | src-tauri/src/qrcode_login.rs:64-127 | a failed request is the error. Otherwise the answer is whether the polling ended with a cookie, and exactly then that cookie's record is saved. A login or timeout end needs `output.png` to exist |
| QrcodeLogin.DecodeQrUrl | src-tauri/src/qrcode_login.rs:175 | no `\u0026` escape is left in the shown link |
| QrcodeLogin.DecodeQrUrlStep | src-tauri/src/qrcode_login.rs:175 | the text up to the first escape (no escape starts in it) is kept, the escape becomes '&', and the rest is decoded the same way |
| QrcodeLogin.DecodeKeepsPlainUrl | src-tauri/src/qrcode_login.rs:175 | a link without the escape is shown as it is |
| QrcodeLogin.LoginQrcode | src-tauri/src/qrcode_login.rs:164-202 | a failed QR request is `false` and nothing is shown or saved. Otherwise the decoded link is shown, and the answer is true exactly when the polling ended with a cookie. A login or timeout end needs `show_qrcode` to have written `output.png` and the file to be still there |
| Text.ReplaceRemovesAll | src-tauri/src/qrcode_login.rs:175 | replacing a pattern by a non-empty text sharing no character with it leaves no occurrence |
| Text.TrimStartMatchesRemovesCopies | src-tauri/src/init_.rs:28 | `trim_start_matches` removes exactly the leading copies of the prefix |
| Text.ReplaceStep | src-tauri/src/qrcode_login.rs:175 | `replace` keeps the text before the first occurrence (no occurrence starts in it), puts the replacement in its place and goes on after it |
| Text.JoinSplit | src-tauri/src/init_.rs:16 | joining the pieces of `split` with the separator gives the string back |
| Theme.ReadStoredThemeMode | src/theme.js:10-17 | always a valid mode. It is not 'auto' exactly when the storage works and holds a valid non-'auto' mode, and then it is that mode |
| Theme.Written | src/theme.js:19-24 | the item is set and every other item kept; a storage that throws stays as it is |
| Theme.ReadBackWritten | src/theme.js:10-24 | a valid mode written is read back; without a storage 'auto' is read back |
| Theme.SystemTheme | src/theme.js:26-31 | 'dark' exactly when `matchMedia` exists and the system prefers dark, else 'light' |
| Theme.ResolveTheme | src/theme.js:33-35 | 'auto' resolves to the system theme and every other mode to itself; a valid mode resolves to 'light' or 'dark' |
| Theme.ResolveIdempotent | src/theme.js:33-35 | a resolved theme resolves to itself |
| Theme.SafeMode | src/theme.js:80-81 | the chosen value when it is a valid mode, else 'auto' |
| Theme.Page.ApplyTheme | src/theme.js:37-41 | data-theme-mode is the mode and data-theme is its resolution; nothing else changes |
| Theme.Page.WriteStoredThemeMode | src/theme.js:19-24 | the storage becomes `Written`; nothing else changes |
| Theme.Page.InitThemeControls | src/theme.js:63-85 | the stored mode is shown and resolved. The system handler is registered when `matchMedia` can take it. A select named by a non-empty id that exists shows the mode and gets the handler. The page is then `Valid` |
| Theme.Page.OnSelectChange | src/theme.js:79-84 | with the handler bound, the safe mode is stored and applied; `Valid` is preserved |
| Theme.Page.OnSystemChange | src/theme.js:43-61 | with the handler registered and the stored mode 'auto', 'auto' is re-applied to the new preference; otherwise the attributes stay. `Valid` is preserved |
| Theme.LostChoiceWithoutStorage | src/theme.js:49-54 | with a storage that throws, a mode picked in the menu is replaced by 'auto' at the next system change |

## Left out

- HTTP requests are not modelled: `get_playurl`, `get_bv_play_url`, the requests inside `get_bv_cid_title`, `get_bangumi_name`, `bv_title`, `is_need_refresh` and `apply_qrcode`, and `get_pic`. Their parsed answers are parameters, and the WBI signing of `get_playurl` (`crate::wbi`) is not part of this model.
- The byte-streaming loops of `down_from_url` and `down_file_url` and their progress bars are reduced to one outcome per transfer: the request fails, the body fails midway (the file exists), or it completes.
- The ffmpeg child process is its outcome: it could not start (the task panics), it exited with failure, or it exited with success. Partial output of a failed run is not modelled.
- `DownBangumi.ConcatVideoAudio`: a panicked task is modelled by one error text, "task panicked". The exact `JoinError` text, which names the task id, is not modelled.
- Tokio tasks, mpsc channels, `emit` and the progress tagging of `download_videos` are not modelled. `choose_download_method` is called with five arguments in `lib.rs` but declared with three in `init_.rs`, so the title and progress delivery cannot be read from this code. The dispatch is modelled as declared.
- `download_video` (the single-link command) is `download_video_with_tx` plus a progress forwarder. `login`, `logout`, `check_login`, `get_save_path`, `set_save_path`, `read_history_log` and `run` are command glue and are not modelled.
- The network answers in `Env` are functions of the request alone, and `transfer` and `mux` depend only on the URL or path. The model cannot express the same request failing once and later succeeding within one run.
- The clock is not modelled: the `Utc::now() + 8h` time string of the history lines is a parameter.
- I/O errors from creating or appending to `dat.log`, creating the save directory and writing the `load` cookie file are not modelled; these always succeed in the model.
- `QrcodeLogin.SaveCookie` returns the record it serialises. The JSON serialisation and the file write are not modelled, so the case where `save_cookie` fails but `qrcode_pull` still answers true is not distinguished.
- `urlencoding::encode` is a function parameter.
- `render_svg_to_png`, `show_qrcode`, `thread::sleep` and the console output are not modelled. Whether `show_qrcode` wrote `output.png`, and whether the file is still there when the polling ends, are parameters of `QrcodeLogin.LoginQrcode`. `show_qrcode`'s own error is only printed, but a missing file makes the later `remove_file("output.png").unwrap()` panic.
- `wait_for_login` and `get_url_and_key` are modelled as already-parsed records. Their `unwrap`s on a malformed answer are not modelled.
- RSA-OAEP `correspond_path`, `get_refresh_csrf` and the commented-out timestamp conversion are not part of this model.
- Other panics are preconditions:
  - an unknown quality label (`qn(..).parse().unwrap()`);
  - a non-numeric ep id (`ep_id.parse().unwrap()`);
  - a SESSDATA that is not valid header text;
  - a season answer without an episode array;
  - an unreadable cookie file in `read_cookie`;
  - a cookie text without '?' or with a piece lacking '=';
  - a missing `output.png` when the polling ends by a login or by the timeout (`remove_file(..).unwrap()`).
- The branch "URL does not contain a valid path" in `get_epid_season` cannot be reached, because `split` always yields at least one piece. It is not modelled.
- The two-element loop over (URL, path) in `down_file_bangumi` and `down_file_bv_` is unrolled into video-then-audio.
- In the theme code, changes made to local storage by another window and the `storage` event are not modelled. A storage whose writes throw while its reads work (a full quota) is not modelled either: storage either works or throws on every access.
- `Theme.Page.Valid`: it does not promise that a page in 'auto' without a registered system handler shows the current system theme, because the code does not keep it so.
- Behaviour of the code worth knowing, which the model follows:
  - With no stream of the requested quality, the code takes a fixed position (0 for episodes, 1 for short videos), not the best stream overall.
  - A muxer that exits with failure still gives Ok.
  - `max_by_key` keeps the last of equal maxima, not the first.
  - `save_cookie` reads only the text between the first and the second '?'.
