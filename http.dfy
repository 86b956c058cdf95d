/** The request plumbing the controllers share: the Bearer-header check, the
    token lookup and current-user lookup that follow it, and the paging
    arithmetic of the list endpoints. */
module Http {
  import opened Common
  import opened UserModel

  const BearerPrefix: string := "Bearer "

  /** The longest prefix of `s` without a space: what `split(" ")` yields as
      the first piece. */
  function UpToSpace(s: string): (r: string)
    ensures r <= s && ' ' !in r
    ensures |r| < |s| ==> s[|r|] == ' '
  {
    if s == [] || s[0] == ' ' then []
    else [s[0]] + UpToSpace(s[1..])
  }

  /** A missing header, or one that does not start with "Bearer ", yields no
      token; otherwise the token is `header.split(" ")[1]`, the run of
      non-space characters right after the prefix. */
  function BearerToken(header: Option<string>): (token: Option<string>)
    ensures token.Some? <==> header.Some? && BearerPrefix <= header.value
    ensures token.Some? ==> BearerPrefix + token.value <= header.value && ' ' !in token.value
    ensures token.Some? && |BearerPrefix| + |token.value| < |header.value| ==>
              header.value[|BearerPrefix| + |token.value|] == ' '
  {
    if header.Some? && BearerPrefix <= header.value then
      var rest := header.value[|BearerPrefix|..];
      assert header.value == BearerPrefix + rest;
      Some(UpToSpace(rest))
    else None
  }

  /** The caller of a request: the verified claims and the stored user. */
  datatype Session = Session(claims: Claims, user: User)

  /** The prologue of every authenticated controller: 401 without a Bearer
      header; `jwt.verify` throwing on an empty or bad token is caught as a
      500; 404 when the token's user id names no stored user; otherwise the
      caller is served. */
  function Authorize(header: Option<string>, verify: Verifier, users: seq<User>): (r: Result<Session>)
    ensures BearerToken(header).None? <==> r == Err(Unauthorized)
    ensures r == Err(ServerError) <==>
              BearerToken(header).Some? &&
              (BearerToken(header).value == "" || BearerToken(header).value !in verify)
    ensures r == Err(NotFound) <==>
              BearerToken(header).Some? && BearerToken(header).value != "" &&
              BearerToken(header).value in verify &&
              forall u :: u in users ==> u.id != verify[BearerToken(header).value].userId
    ensures r.Ok? <==>
              BearerToken(header).Some? && BearerToken(header).value != "" &&
              BearerToken(header).value in verify &&
              exists u :: u in users && u.id == verify[BearerToken(header).value].userId
    ensures r.Err? ==> r.error in {Unauthorized, ServerError, NotFound}
    ensures r.Ok? ==>
              BearerToken(header).Some? && BearerToken(header).value in verify &&
              r.value.claims == verify[BearerToken(header).value] &&
              r.value.user in users && r.value.user.id == r.value.claims.userId
  {
    match BearerToken(header)
    case None => Err(Unauthorized)
    case Some(token) =>
      if token == "" || token !in verify then Err(ServerError)
      else
        var claims := verify[token];
        match FindUser(users, claims.userId)
        case None => Err(NotFound)
        case Some(u) => Ok(Session(claims, u))
  }

  /** `parseInt(param) || fallback`: an unparsable parameter (`NaN`, here
      `None`) and 0 are both falsy and give the fallback; any other parsed
      integer, negative ones included, is kept. */
  function OrDefault(parsed: Option<int>, fallback: int): (r: int)
    ensures fallback != 0 ==> r != 0
    ensures r == fallback || parsed == Some(r)
    ensures parsed.None? || parsed == Some(0) ==> r == fallback
  {
    if parsed.Some? && parsed.value != 0 then parsed.value else fallback
  }

  /** The page number of a list request; 1 when absent, unparsable or 0. */
  function PageNumber(parsed: Option<int>): (page: int)
    ensures page != 0
    ensures parsed.None? || parsed == Some(0) ==> page == 1
    ensures parsed.Some? && parsed.value != 0 ==> page == parsed.value
  {
    OrDefault(parsed, 1)
  }

  /** The page size of a list request; 10 when absent, unparsable or 0. */
  function PageSize(parsed: Option<int>): (limit: int)
    ensures limit != 0
    ensures parsed.None? || parsed == Some(0) ==> limit == 10
    ensures parsed.Some? && parsed.value != 0 ==> limit == parsed.value
  {
    OrDefault(parsed, 10)
  }

  /** `skip = (page - 1) * limit`: for positive page and limit, consecutive
      pages start `limit` documents apart and the first starts at 0. */
  function Skip(page: int, limit: int): (skip: int)
    ensures page == 1 ==> skip == 0
    ensures page >= 1 && limit >= 1 ==> skip >= 0
    ensures page * limit == skip + limit
  {
    var skip := (page - 1) * limit;
    assert page * limit == (page - 1) * limit + 1 * limit;
    assert page >= 1 && limit >= 1 ==> (page - 1) * limit >= 0 * limit;
    skip
  }

  /** `Math.ceil(total / limit)`, the number of pages: the least integer not
      below `total / limit` (a negative limit gives a non-positive count). */
  function TotalPages(total: nat, limit: int): (pages: int)
    requires limit != 0
    ensures limit > 0 ==> pages * limit >= total && (pages - 1) * limit < total
    ensures limit < 0 ==> pages * limit <= total && (pages - 1) * limit > total
  {
    if limit > 0 then
      var q := (total + limit - 1) / limit;
      CeilBounds(total, limit);
      q
    else
      var q := total / -limit;
      assert q * -limit <= total < (q + 1) * -limit;
      -q
  }

  lemma CeilBounds(total: nat, limit: int)
    requires limit > 0
    ensures ((total + limit - 1) / limit) * limit >= total
    ensures ((total + limit - 1) / limit - 1) * limit < total
  {
    var q := (total + limit - 1) / limit;
    var r := (total + limit - 1) % limit;
    assert q * limit + r == total + limit - 1 && 0 <= r < limit;
  }

  /** `.skip(skip).limit(limit)` on a query result. Mongo refuses a negative
      skip (the controller catches the error as a 500) and reads a negative
      limit as its absolute value. Callers always pass a non-zero limit. */
  function Page<T>(s: seq<T>, skip: int, limit: int): (r: Result<seq<T>>)
    requires limit != 0
    ensures r.Ok? <==> skip >= 0
    ensures r.Err? ==> r.error == ServerError
    ensures r.Ok? ==> |r.value| == Min(Abs(limit), Max(0, |s| - skip))
    ensures r.Ok? ==> forall k :: 0 <= k < |r.value| ==> r.value[k] == s[skip + k]
  {
    if skip < 0 then Err(ServerError)
    else
      var from := Min(skip, |s|);
      Ok(s[from..Min(from + Abs(limit), |s|)])
  }
}
