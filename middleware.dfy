/** The blocked-user middleware: it reads the token key from the
    `Authorization` header, looks the token up, answers 401 for a blocked
    user and otherwise hands the request on unchanged. */
module Middleware {
  import opened Common
  import opened Models

  /** `"a b".join(parts)` with a single space. */
  function Join(parts: seq<string>): string
    requires |parts| >= 1
  {
    if |parts| == 1 then parts[0] else parts[0] + " " + Join(parts[1..])
  }

  /** `s.split(' ')`: cut at every single space; consecutive spaces give
      empty segments and there is always at least one segment. */
  function Split(s: string): (r: seq<string>)
    ensures |r| >= 1
    ensures forall i :: 0 <= i < |r| ==> ' ' !in r[i]
    ensures Join(r) == s
  {
    if s == [] then [[]]
    else
      var t := Split(s[1..]);
      if s[0] == ' ' then
        assert Join([[]] + t) == " " + Join(t);
        [[]] + t
      else
        var r := [[s[0]] + t[0]] + t[1..];
        assert |t| > 1 ==> Join(t) == t[0] + " " + Join(t[1..]);
        assert |t| > 1 ==> Join(r) == r[0] + " " + Join(t[1..]) by {
          if |t| > 1 { assert r[1..] == t[1..]; }
        }
        r
  }

  lemma {:induction false} JoinLast(parts: seq<string>)
    requires |parts| >= 2
    ensures Join(parts) == Join(parts[..|parts| - 1]) + " " + parts[|parts| - 1]
  {
    if |parts| > 2 {
      JoinLast(parts[1..]);
      assert parts[1..][..|parts| - 2] == parts[..|parts| - 1][1..];
    }
  }

  /** `header.split(' ')[-1]`: the part of the header after its last space,
      or the whole header when it has none. */
  function TokenKey(header: string): (k: string)
    ensures ' ' !in k
    ensures |k| <= |header| && header[|header| - |k|..] == k
    ensures |k| == |header| || header[|header| - |k| - 1] == ' '
  {
    var parts := Split(header);
    var k := parts[|parts| - 1];
    assert |parts| >= 2 ==> header == Join(parts[..|parts| - 1]) + " " + k by {
      if |parts| >= 2 {
        JoinLast(parts);
      }
    }
    assert |parts| >= 2 ==> header[|header| - |k|..] == k;
    k
  }

  const AuthorizationHeader: string := "Authorization"
  const BlockedDetail: string := "Пользователь заблокирован!"

  datatype Request = Request(headers: map<string, string>)

  /** What the middleware answers: the downstream handler's response,
      untouched, or its own 401 with a detail message. */
  datatype Response<R> = Downstream(response: R) | Rejected(status: Status, detail: string)

  /** The user a header's token belongs to, if the header is present and its
      token is known. */
  function TokenUser(request: Request, tokens: map<string, User>): Option<User> {
    if AuthorizationHeader in request.headers && TokenKey(request.headers[AuthorizationHeader]) in tokens
    then Some(tokens[TokenKey(request.headers[AuthorizationHeader])])
    else None
  }

  /** `BlockUserMiddleware.__call__`; `tokens` is the token table (key to
      the token's user) and `getResponse` the downstream handler. */
  function Call<R>(request: Request, tokens: map<string, User>, getResponse: Request -> R): (r: Response<R>)
    ensures r.Rejected? <==> TokenUser(request, tokens).Some? && TokenUser(request, tokens).value.isBlocked
    ensures r.Rejected? ==> r.status == Unauthorized401 && r.detail == BlockedDetail
    ensures r.Downstream? ==> r.response == getResponse(request)
  {
    if AuthorizationHeader in request.headers then
      var key := TokenKey(request.headers[AuthorizationHeader]);
      if key in tokens && tokens[key].isBlocked then Rejected(Unauthorized401, BlockedDetail)
      else Downstream(getResponse(request))
    else Downstream(getResponse(request))
  }

  /** Without an `Authorization` header the downstream response is returned. */
  lemma NoHeaderPassesThrough<R>(request: Request, tokens: map<string, User>, getResponse: Request -> R)
    requires AuthorizationHeader !in request.headers
    ensures Call(request, tokens, getResponse) == Downstream(getResponse(request))
  {
  }

  /** An unknown token key is not an error: the request is handed on. */
  lemma UnknownTokenPassesThrough<R>(request: Request, tokens: map<string, User>, getResponse: Request -> R)
    requires AuthorizationHeader in request.headers
    requires TokenKey(request.headers[AuthorizationHeader]) !in tokens
    ensures Call(request, tokens, getResponse) == Downstream(getResponse(request))
  {
  }

  /** A user who was never blocked (the flag's default) is never rejected,
      whatever header carries their token. */
  lemma {:induction false} NewUserPassesThrough<R>(
    request: Request, tokens: map<string, User>, getResponse: Request -> R,
    email: string, username: string, firstName: string, lastName: string)
    requires AuthorizationHeader in request.headers
    requires TokenKey(request.headers[AuthorizationHeader]) in tokens
    requires tokens[TokenKey(request.headers[AuthorizationHeader])] == NewUser(email, username, firstName, lastName)
    ensures Call(request, tokens, getResponse) == Downstream(getResponse(request))
  {
    var u := NewUser(email, username, firstName, lastName);
    assert !u.isBlocked;
  }

  /** "Token <key>" with a blocked user's key is rejected. */
  lemma {:induction false} BlockedTokenRejected<R>(key: string, tokens: map<string, User>, getResponse: Request -> R)
    requires ' ' !in key && key in tokens && tokens[key].isBlocked
    ensures Call(Request(map[AuthorizationHeader := "Token " + key]), tokens, getResponse) == Rejected(Unauthorized401, BlockedDetail)
  {
    var h := "Token " + key;
    var k := TokenKey(h);
    assert h[5] == ' ';
    assert k == key;
  }
}
