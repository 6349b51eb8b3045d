/** Logging in by QR code: the QR link's escaped ampersands, the poll loop that waits for the
    phone to confirm (at most three minutes, one poll every three seconds) and the cookie
    record built from the confirmed login link. */
module QrcodeLogin {
  import opened Wrappers
  import opened Numbers
  import opened Text

  /** The seconds `qrcode_pull` waits between two polls, and the seconds after which it gives up. */
  const PollInterval: nat := 3
  const Timeout: nat := 180
  /** The most polls one login makes. */
  const MaxPolls: nat := 60

  /** The escaped ampersand the QR-code answer carries, as the six characters `\u0026`. */
  const EscapedAmpersand: string := "\\u0026"
  const RefreshTokenKey: string := "refresh_token"

  /** One poll: the request failed, or the answer as `wait_for_login` reads it (the two codes
      as the JSON integers, before their cast to 32 bits). */
  datatype PollAnswer =
    | RequestFailed(error: string)
    | Answer(code: int, url: string, refreshToken: string, dataCode: int, message: string)

  /** The phone confirmed the login. */
  predicate IsLogin(a: PollAnswer)
  {
    a.Answer? && AsI32(a.code) == 0 && AsI32(a.dataCode) == 0
  }

  /** The address is refused ("ip is baned"). */
  predicate IsBanned(a: PollAnswer)
  {
    a.Answer? && AsI32(a.code) != 0
  }

  /** Not scanned or not confirmed yet: poll again. */
  predicate IsPending(a: PollAnswer)
  {
    a.Answer? && AsI32(a.code) == 0 && AsI32(a.dataCode) != 0
  }

  /** The text `qrcode_pull` keeps from a confirmed login: the link with the refresh token appended. */
  function LoginCookie(url: string, refreshToken: string): string
  {
    url + "&" + RefreshPiece(refreshToken)
  }

  /** The query piece carrying the refresh token. */
  function RefreshPiece(refreshToken: string): string
  {
    RefreshTokenKey + "=" + refreshToken
  }

  /** How the polling ends: a request failed, or it stopped after `polls` polls, with the
      cookie text when the login was confirmed. */
  datatype PollEnd = Failed(error: string) | Ended(cookie: Option<string>, polls: nat)

  /** The polling from poll `i` on, `answer(k)` being the answer to poll `k`. */
  function PollFrom(answer: nat -> PollAnswer, i: nat): (e: PollEnd)
    requires i < MaxPolls
    ensures e.Ended? ==> i < e.polls <= MaxPolls
    ensures e.Ended? ==> forall k :: i <= k < e.polls - 1 ==> IsPending(answer(k))
    ensures e.Ended? && e.cookie.Some? ==>
      var last := answer(e.polls - 1);
      IsLogin(last) && e.cookie.value == LoginCookie(last.url, last.refreshToken)
    ensures e.Ended? && e.cookie.None? ==>
      IsBanned(answer(e.polls - 1)) || (e.polls == MaxPolls && IsPending(answer(MaxPolls - 1)))
    decreases MaxPolls - i
  {
    match answer(i)
    case RequestFailed(err) => Failed(err)
    case Answer(code, url, token, dataCode, _) =>
      if AsI32(code) != 0 then Ended(None, i + 1)
      else if AsI32(dataCode) == 0 then Ended(Some(LoginCookie(url, token)), i + 1)
      else if i + 1 == MaxPolls then Ended(None, MaxPolls)
      else PollFrom(answer, i + 1)
  }

  /** Pending answers are skipped: the polling from `i` ends as the polling from `n` does. */
  lemma {:induction false} PollSkipsPending(answer: nat -> PollAnswer, i: nat, n: nat)
    requires i <= n < MaxPolls
    requires forall k :: i <= k < n ==> IsPending(answer(k))
    ensures PollFrom(answer, i) == PollFrom(answer, n)
    decreases n - i
  {
    if i < n {
      assert IsPending(answer(i));
      PollSkipsPending(answer, i + 1, n);
    }
  }

  /** A login confirmed at poll `n`, after only pending answers, gives its cookie. */
  lemma LoginAfterWaiting(answer: nat -> PollAnswer, n: nat)
    requires n < MaxPolls
    requires forall k :: 0 <= k < n ==> IsPending(answer(k))
    requires IsLogin(answer(n))
    ensures PollFrom(answer, 0) == Ended(Some(LoginCookie(answer(n).url, answer(n).refreshToken)), n + 1)
  {
    PollSkipsPending(answer, 0, n);
  }

  /** A request that fails after only pending answers is the polling's error. */
  lemma FailureAfterWaiting(answer: nat -> PollAnswer, n: nat)
    requires n < MaxPolls
    requires forall k :: 0 <= k < n ==> IsPending(answer(k))
    requires answer(n).RequestFailed?
    ensures PollFrom(answer, 0) == Failed(answer(n).error)
  {
    PollSkipsPending(answer, 0, n);
  }

  /** Sixty pending answers end the polling without a cookie. */
  lemma TimeoutAfterSixtyPolls(answer: nat -> PollAnswer)
    requires forall k :: 0 <= k < MaxPolls ==> IsPending(answer(k))
    ensures PollFrom(answer, 0) == Ended(None, MaxPolls)
  {
    PollSkipsPending(answer, 0, MaxPolls - 1);
  }

  /** A refused address ends the polling at once, without a cookie. */
  lemma BannedEndsWithoutCookie(answer: nat -> PollAnswer, n: nat)
    requires n < MaxPolls
    requires forall k :: 0 <= k < n ==> IsPending(answer(k))
    requires IsBanned(answer(n))
    ensures PollFrom(answer, 0) == Ended(None, n + 1)
  {
    PollSkipsPending(answer, 0, n);
  }

  /** The polling ended by a confirmed login or by the timeout: the two ends at which
      `qrcode_pull` removes the shown `output.png`, panicking when it is missing. */
  predicate RemovesPng(answer: nat -> PollAnswer, e: PollEnd)
  {
    e.Ended? && e.polls > 0 && !IsBanned(answer(e.polls - 1))
  }

  /** The query of a cookie text: what follows its first '?', up to a second one, split at '&'. */
  function QueryPieces(cookie: string): (pieces: seq<string>)
    requires '?' in cookie
    ensures |pieces| > 0
    ensures forall k :: 0 <= k < |pieces| ==> '&' !in pieces[k]
  {
    SplitHasTwoParts(cookie, '?');
    Split(Split(cookie, '?')[1], '&')
  }

  /** A cookie text `save_cookie` reads without panicking: a '?' and an '=' in every query piece. */
  predicate CookieParsable(cookie: string)
  {
    '?' in cookie && forall k :: 0 <= k < |QueryPieces(cookie)| ==> '=' in QueryPieces(cookie)[k]
  }

  /** The name of a query piece: the text before its first '='. */
  function Key(piece: string): (k: string)
    ensures '=' !in k && |k| <= |piece| && k == piece[..|k|]
  {
    Split(piece, '=')[0]
  }

  /** The value of a query piece: the text between its first and second '='. */
  function Value(piece: string): (v: string)
    requires '=' in piece
    ensures '=' !in v
  {
    SplitHasTwoParts(piece, '=');
    Split(piece, '=')[1]
  }

  /** Every piece has an '='. */
  predicate AllHaveValue(pieces: seq<string>)
  {
    forall k :: 0 <= k < |pieces| ==> '=' in pieces[k]
  }

  /** The record the query pieces give, each value URL-encoded by `encode`, a later piece
      overwriting an earlier one of the same name. */
  function CookieMap(pieces: seq<string>, encode: string -> string): (m: map<string, string>)
    requires AllHaveValue(pieces)
    ensures m.Keys == set k | 0 <= k < |pieces| :: Key(pieces[k])
  {
    if pieces == [] then map[]
    else
      var last := pieces[|pieces| - 1];
      var m0 := CookieMap(pieces[..|pieces| - 1], encode);
      assert forall k :: 0 <= k < |pieces| - 1 ==> pieces[..|pieces| - 1][k] == pieces[k];
      m0[Key(last) := encode(Value(last))]
  }

  /** A name holds the value of the last piece that carries it. */
  lemma {:induction false} CookieMapLastWins(pieces: seq<string>, encode: string -> string, i: nat)
    requires AllHaveValue(pieces)
    requires i < |pieces|
    requires forall j :: i < j < |pieces| ==> Key(pieces[j]) != Key(pieces[i])
    ensures Key(pieces[i]) in CookieMap(pieces, encode)
    ensures CookieMap(pieces, encode)[Key(pieces[i])] == encode(Value(pieces[i]))
    decreases |pieces|
  {
    var n := |pieces| - 1;
    var front := pieces[..n];
    if i < n {
      assert forall j :: i < j < |front| ==> front[j] == pieces[j];
      CookieMapLastWins(front, encode, i);
      assert front[i] == pieces[i];
      assert Key(pieces[n]) != Key(pieces[i]);
    }
  }

  /** `save_cookie`: the record it serialises into the `load` file. */
  method SaveCookie(cookie: string, encode: string -> string) returns (saved: map<string, string>)
    requires CookieParsable(cookie)
    ensures saved == CookieMap(QueryPieces(cookie), encode)
  {
    var params := QueryPieces(cookie);
    saved := map[];
    for i := 0 to |params|
      invariant saved == CookieMap(params[..i], encode)
    {
      assert params[..i + 1][..i] == params[..i];
      var kv := Split(params[i], '=');
      SplitHasTwoParts(params[i], '=');
      saved := saved[kv[0] := encode(kv[1])];
    }
    assert params[..|params|] == params;
  }

  /** The query pieces of a confirmed login's cookie text: those of the link's query, then
      the refresh-token piece. */
  lemma LoginCookieQuery(base: string, query: string, token: string)
    requires '?' !in base && '?' !in query && '?' !in token && '&' !in token
    ensures '?' in LoginCookie(base + "?" + query, token)
    ensures QueryPieces(LoginCookie(base + "?" + query, token)) == Split(query, '&') + [RefreshPiece(token)]
  {
    var tail := RefreshPiece(token);
    var rest := query + "&" + tail;
    var cookie := LoginCookie(base + "?" + query, token);
    assert '?' !in tail && '&' !in tail by {
      KeyIsPlain();
    }
    assert cookie == base + "?" + rest by {
      Regroup(base, "?", query, "&", tail);
    }
    assert cookie[|base|] == '?';
    assert Split(cookie, '?')[1] == rest by {
      assert '?' !in rest;
      SplitAppend(base, rest, '?');
      SplitWithoutSep(base, '?');
      SplitWithoutSep(rest, '?');
    }
    SplitAppend(query, tail, '&');
    SplitWithoutSep(tail, '&');
  }

  lemma Regroup<T>(a: seq<T>, b: seq<T>, c: seq<T>, d: seq<T>, e: seq<T>)
    ensures a + b + c + d + e == a + b + (c + d + e)
  {
  }

  /** The refresh-token piece is named `refresh_token` and holds the token up to its first '='. */
  lemma RefreshTokenPiece(token: string)
    ensures '=' in RefreshPiece(token)
    ensures Key(RefreshPiece(token)) == RefreshTokenKey
    ensures Value(RefreshPiece(token)) == BeforeFirst(token, '=')
  {
    var tail := RefreshPiece(token);
    assert tail == RefreshTokenKey + ['='] + token;
    assert tail[|RefreshTokenKey|] == '=';
    SplitAppend(RefreshTokenKey, token, '=');
    KeyIsPlain();
    SplitWithoutSep(RefreshTokenKey, '=');
  }

  lemma KeyIsPlain()
    ensures '=' !in RefreshTokenKey && '&' !in RefreshTokenKey && '?' !in RefreshTokenKey
  {
    assert RefreshTokenKey == ['r', 'e', 'f', 'r', 'e', 's', 'h', '_', 't', 'o', 'k', 'e', 'n'];
  }

  /** The refresh token of a confirmed login lands in the saved record under `refresh_token`,
      cut at its first '=' as every value is, whatever the query before it holds. */
  lemma RefreshTokenSaved(base: string, query: string, token: string, encode: string -> string)
    requires '?' !in base && '?' !in query && '?' !in token && '&' !in token
    requires AllHaveValue(Split(query, '&'))
    ensures CookieParsable(LoginCookie(base + "?" + query, token))
    ensures var m := CookieMap(QueryPieces(LoginCookie(base + "?" + query, token)), encode);
      RefreshTokenKey in m && m[RefreshTokenKey] == encode(BeforeFirst(token, '='))
  {
    var tail := RefreshPiece(token);
    var front := Split(query, '&');
    LoginCookieQuery(base, query, token);
    RefreshTokenPiece(token);
    AllHaveValueAppend(front, tail);
    LastPieceWins(front + [tail], encode);
  }

  lemma AllHaveValueAppend(front: seq<string>, last: string)
    requires AllHaveValue(front) && '=' in last
    ensures AllHaveValue(front + [last])
  {
    assert forall k :: 0 <= k < |front| ==> (front + [last])[k] == front[k];
  }

  /** The last piece's name holds the last piece's value. */
  lemma LastPieceWins(pieces: seq<string>, encode: string -> string)
    requires AllHaveValue(pieces) && pieces != []
    ensures Key(pieces[|pieces| - 1]) in CookieMap(pieces, encode)
    ensures CookieMap(pieces, encode)[Key(pieces[|pieces| - 1])] == encode(Value(pieces[|pieces| - 1]))
  {
  }

  /** The polling reaching a confirmed login ends there, removing `output.png`. */
  lemma {:induction false} LoginEnd(answer: nat -> PollAnswer, i: nat, e: PollEnd)
    requires i < MaxPolls && IsLogin(answer(i)) && PollFrom(answer, i) == e
    ensures e == Ended(Some(LoginCookie(answer(i).url, answer(i).refreshToken)), i + 1)
    ensures RemovesPng(answer, e)
  {
    var a := answer(i);
    assert a.Answer? && AsI32(a.code) == 0 && AsI32(a.dataCode) == 0;
    assert e == Ended(Some(LoginCookie(a.url, a.refreshToken)), i + 1);
    assert answer(e.polls - 1) == a;
  }

  /** The polling that runs out of time ends after its last poll, removing `output.png`. */
  lemma TimeoutEnd(answer: nat -> PollAnswer, e: PollEnd)
    requires PollFrom(answer, MaxPolls - 1) == e && IsPending(answer(MaxPolls - 1))
    ensures e == Ended(None, MaxPolls) && RemovesPng(answer, e)
  {
    assert e.polls - 1 == MaxPolls - 1;
  }

  /** `qrcode_pull`: poll until the login is confirmed, the address is refused or three minutes
      have passed; a failed request is the error. A confirmed login's cookie is saved and the
      answer is whether there was one. `png` says whether `output.png` exists when the polling
      ends; a login or a timeout removes it with an `unwrap`. */
  method QrcodePull(answer: nat -> PollAnswer, encode: string -> string, png: bool)
    returns (r: Result<bool>, saved: Option<map<string, string>>)
    requires var e := PollFrom(answer, 0); e.Ended? && e.cookie.Some? ==> CookieParsable(e.cookie.value)
    requires RemovesPng(answer, PollFrom(answer, 0)) ==> png
    ensures PollFrom(answer, 0).Failed? ==> r == Err(PollFrom(answer, 0).error) && saved.None?
    ensures PollFrom(answer, 0).Ended? ==> var c := PollFrom(answer, 0).cookie;
      && r == Ok(c.Some?)
      && (c.Some? ==> saved == Some(CookieMap(QueryPieces(c.value), encode)))
      && (c.None? ==> saved.None?)
  {
    ghost var e := PollFrom(answer, 0);
    var flag := false;
    var cookie: Option<string>;
    var count: nat := 0;
    // Which poll this is: `answer` is indexed by it, standing for the successive responses.
    var i: nat := 0;
    while true
      invariant count == PollInterval * i && i < MaxPolls
      invariant PollFrom(answer, i) == e
      decreases Timeout - count
    {
      var a := answer(i);
      if a.RequestFailed? {
        assert e == Failed(a.error);
        return Err(a.error), None;
      }
      if AsI32(a.code) == 0 {
        if AsI32(a.dataCode) == 0 {
          LoginEnd(answer, i, e);
          // `remove_file("output.png").unwrap()` finds the file.
          assert png;
          cookie := Some(LoginCookie(a.url, a.refreshToken));
          flag := true;
          break;
        }
      } else {
        cookie := None;
        assert e == Ended(cookie, i + 1);
        break;
      }
      count := count + PollInterval;
      i := i + 1;
      if count >= Timeout {
        TimeoutEnd(answer, e);
        // `remove_file("output.png").unwrap()` finds the file.
        assert png;
        cookie := None;
        break;
      }
    }
    assert e.Ended? && e.cookie == cookie;
    saved := None;
    if cookie.Some? {
      var record := SaveCookie(cookie.value, encode);
      saved := Some(record);
      flag := true;
    }
    r := Ok(flag);
  }

  /** The QR link with every `\u0026` turned back into '&'. */
  function DecodeQrUrl(url: string): (r: string)
    ensures forall i :: !OccursAt(r, EscapedAmpersand, i)
  {
    ReplaceRemovesAll(url, EscapedAmpersand, "&");
    Replace(url, EscapedAmpersand, "&")
  }

  /** Decoding copies the text up to the first escape, puts '&' in its place and goes on
      after it. */
  lemma DecodeQrUrlStep(a: string, b: string)
    requires forall i :: 0 <= i < |a| ==> !OccursAt(a + EscapedAmpersand, EscapedAmpersand, i)
    ensures DecodeQrUrl(a + EscapedAmpersand + b) == a + "&" + DecodeQrUrl(b)
  {
    ReplaceStep(a, b, EscapedAmpersand, "&");
  }

  /** A link without the escape is shown as it is. */
  lemma DecodeKeepsPlainUrl(url: string)
    requires forall i :: !OccursAt(url, EscapedAmpersand, i)
    ensures DecodeQrUrl(url) == url
  {
    ReplaceWithoutOccurrence(url, EscapedAmpersand, "&");
  }

  /** The QR-code answer once `get_url_and_key` has read it. */
  datatype QrCode = QrCode(url: string, key: string)

  /** `login_qrcode`: ask for a QR code (a failed request is `false`), show its decoded link,
      then poll; the answer is whether a login was confirmed. `rendered` says whether
      `show_qrcode` wrote `output.png` (its failure is only printed) and `kept` whether the file
      is still there when the polling ends. */
  method LoginQrcode(apply: Result<QrCode>, answer: nat -> PollAnswer, encode: string -> string,
                     rendered: bool, kept: bool)
    returns (ok: bool, shown: Option<string>, saved: Option<map<string, string>>)
    requires var e := PollFrom(answer, 0); e.Ended? && e.cookie.Some? ==> CookieParsable(e.cookie.value)
    requires apply.Ok? && RemovesPng(answer, PollFrom(answer, 0)) ==> rendered && kept
    ensures apply.Err? ==> !ok && shown.None? && saved.None?
    ensures apply.Ok? ==> shown == Some(DecodeQrUrl(apply.value.url))
    ensures ok <==> apply.Ok? && PollFrom(answer, 0).Ended? && PollFrom(answer, 0).cookie.Some?
    ensures ok ==> saved == Some(CookieMap(QueryPieces(PollFrom(answer, 0).cookie.value), encode))
    ensures !ok ==> saved.None?
  {
    if apply.Err? {
      return false, None, None;
    }
    shown := Some(DecodeQrUrl(apply.value.url));
    // The QR code's key is the query of every poll; the answers in `answer` are those to it.
    var pulled;
    pulled, saved := QrcodePull(answer, encode, rendered && kept);
    ok := pulled.Ok? && pulled.value;
  }
}
