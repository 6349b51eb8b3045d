/** The stored session credential, the request headers built from it, and the defaults applied
    to the cookie-status response. */
module RefreshCookie {
  import opened Wrappers
  import opened Numbers

  datatype Cookies = Cookies(sessdata: string, biliJct: string, refreshToken: string)

  const EmptyCookies: Cookies := Cookies("", "", "")

  /** The cookie file: absent, or present with contents that deserialize or not. */
  datatype CookieFile = Absent | Present(parsed: Result<Cookies>)

  const UserAgent: string := "Mozilla/5.0 (Windows NT 10.0; Win64; x64) AppleWebKit/537.36 (KHTML, like Gecko) Chrome/126.0.0.0 Safari/537.36"
  const Referer: string := "https://www.bilibili.com"
  const SessdataPrefix: string := "SESSDATA="

  /** `read_cookie`: the stored credential, or an all-empty one when there is no file.
      Unreadable contents make it panic, hence the requirement. */
  function ReadCookie(f: CookieFile): (c: Cookies)
    requires f.Present? ==> f.parsed.Ok?
    ensures f.Absent? ==> c.sessdata == "" && c.biliJct == "" && c.refreshToken == ""
    ensures f.Present? ==> c == f.parsed.value
  {
    match f
    case Absent => EmptyCookies
    case Present(p) => p.value
  }

  /** Characters `HeaderValue::from_str` accepts: tab, and everything from space up except DEL. */
  predicate IsHeaderChar(c: char) { c == '\t' || (' ' <= c && c != '\U{7F}') }

  predicate IsHeaderText(s: string) { forall k :: 0 <= k < |s| ==> IsHeaderChar(s[k]) }

  /** `create_headers`: exactly a User-Agent, a Referer and a Cookie carrying only SESSDATA.
      A SESSDATA that is not valid header text makes it panic, hence the requirement. */
  function CreateHeaders(c: Cookies): (h: map<string, string>)
    requires IsHeaderText(c.sessdata)
    ensures h.Keys == {"User-Agent", "Referer", "Cookie"}
    ensures h["User-Agent"] == UserAgent && h["Referer"] == Referer
    ensures |h["Cookie"]| == |SessdataPrefix| + |c.sessdata|
    ensures h["Cookie"][..|SessdataPrefix|] == SessdataPrefix && h["Cookie"][|SessdataPrefix|..] == c.sessdata
  {
    map["User-Agent" := UserAgent, "Referer" := Referer, "Cookie" := SessdataPrefix + c.sessdata]
  }

  /** The headers depend on SESSDATA alone: `bili_jct` and `refresh_token` are never sent. */
  lemma HeadersDependOnSessdataOnly(c: Cookies, d: Cookies)
    requires IsHeaderText(c.sessdata) && IsHeaderText(d.sessdata)
    ensures CreateHeaders(c) == CreateHeaders(d) <==> c.sessdata == d.sessdata
  {
    if CreateHeaders(c) == CreateHeaders(d) {
      assert CreateHeaders(c)["Cookie"][|SessdataPrefix|..] == CreateHeaders(d)["Cookie"][|SessdataPrefix|..];
    }
  }

  /** Without a cookie file the requests go out with an empty session cookie instead of failing. */
  lemma MissingCookieFileSendsEmptySession()
    ensures CreateHeaders(ReadCookie(Absent))["Cookie"] == SessdataPrefix
  {
  }

  /** The query of the cookie-status request: only `csrf`, set to `bili_jct`. */
  function RefreshQuery(c: Cookies): (q: map<string, string>)
    ensures q.Keys == {"csrf"} && q["csrf"] == c.biliJct
  {
    map["csrf" := c.biliJct]
  }

  /** The fields of the cookie-status response, None when absent or of another type. */
  datatype CookieInfo = CookieInfo(code: Option<int>, refresh: Option<bool>, timestamp: Option<int>)

  datatype RefreshStatus = RefreshStatus(code: int, refresh: bool, timestamp: string)

  /** The decoding of `is_need_refresh`: code -1, refresh true and timestamp "0" when absent;
      the code is cast to i32 and the timestamp printed in decimal. */
  function RefreshStatusOf(info: CookieInfo): (s: RefreshStatus)
    ensures AsI64(info.code).None? ==> s.code == -1
    ensures AsI64(info.code).Some? ==> s.code == AsI32(info.code.value)
    ensures AsI64(info.code).Some? && IsI32(info.code.value) ==> s.code == info.code.value
    ensures info.refresh.None? ==> s.refresh
    ensures info.refresh.Some? ==> s.refresh == info.refresh.value
    ensures AsI64(info.timestamp).None? ==> s.timestamp == "0"
    ensures AsI64(info.timestamp).Some? ==> ParseI64(s.timestamp) == Some(info.timestamp.value)
  {
    var ts := AsI64(info.timestamp).GetOr(0);
    ParseToDecimal(ts, -TwoTo63, TwoTo63);
    RefreshStatus(AsI32(AsI64(info.code).GetOr(-1)), info.refresh.GetOr(true), ToDecimal(ts))
  }

  /** `is_need_refresh` once the request has been answered: a failed request or an
      undecodable body is an error, anything else is decoded with the defaults above. */
  function IsNeedRefresh(response: Result<CookieInfo>): (r: Result<RefreshStatus>)
    ensures r.Err? <==> response.Err?
    ensures response.Err? ==> r.error == response.error
    ensures response.Ok? ==> r.value == RefreshStatusOf(response.value)
  {
    match response
    case Err(e) => Err(e)
    case Ok(info) => Ok(RefreshStatusOf(info))
  }
}
