/** The authorization guard every protected handler repeats before its own logic:
    read the `Authorization` header, split it at spaces, insist on the `Bearer`
    scheme and a non-empty token, verify the token with `JWT_SECRET2` and find the
    user it names. */
module Guard {
  import opened Common
  import opened Tokens
  import opened Records

  datatype Checked<+T> = Accept(value: T) | Reject(status: nat, error: ErrorCode)

  /** The header checks: a missing (or empty) header, then the first two pieces of
      `authHeader.split(' ')`, the second of which is `undefined` when there is no
      space at all. */
  function BearerToken(header: Option<string>): (r: Checked<string>)
    ensures r.Reject? ==> r.status == 401 &&
                          (r.error == MissingAuthorizationHeader || r.error == InvalidAuthorizationFormat)
    ensures r.Accept? ==> header.Some? && r.value != []
  {
    if header.None? || header.value == [] then Reject(401, MissingAuthorizationHeader)
    else
      var parts := Split(header.value, " ");
      var token := if |parts| >= 2 then parts[1] else [];
      if parts[0] != "Bearer" || token == [] then Reject(401, InvalidAuthorizationFormat)
      else Accept(token)
  }

  /** The guard accepts exactly the headers that start with `Bearer `, then a
      non-empty token without spaces, then either nothing or a space followed by
      anything; the token is what it hands on. */
  lemma BearerTokenShape(h: string, t: string)
    ensures BearerToken(Some(h)) == Accept(t) <==>
              t != [] && ' ' !in t && (h == "Bearer " + t || "Bearer " + t + " " <= h)
  {
    if BearerToken(Some(h)) == Accept(t) {
      AcceptedShape(h, t);
    }
    if t != [] && ' ' !in t && (h == "Bearer " + t || "Bearer " + t + " " <= h) {
      ShapeAccepted(h, t);
    }
  }

  lemma AcceptedShape(h: string, t: string)
    requires BearerToken(Some(h)) == Accept(t)
    ensures t != [] && ' ' !in t && (h == "Bearer " + t || "Bearer " + t + " " <= h)
  {
    var parts := Split(h, " ");
    assert parts[0] == "Bearer" && parts[1] == t;
    assert t in parts;
    NotIncludesChar(t, ' ');
    if |parts| == 2 {
      JoinTwo(parts, " ");
    } else {
      JoinMore(parts, " ");
    }
  }

  lemma JoinTwo(parts: seq<string>, sep: string)
    requires |parts| == 2
    ensures Join(parts, sep) == parts[0] + sep + parts[1]
  {
    assert parts[1..] == [parts[1]];
  }

  lemma JoinMore(parts: seq<string>, sep: string)
    requires |parts| > 2
    ensures Join(parts, sep) == parts[0] + sep + (parts[1] + sep + Join(parts[2..], sep))
  {
    assert parts[1..][1..] == parts[2..];
  }

  lemma ShapeAccepted(h: string, t: string)
    requires t != [] && ' ' !in t && (h == "Bearer " + t || "Bearer " + t + " " <= h)
    ensures BearerToken(Some(h)) == Accept(t)
  {
    if h == "Bearer " + t {
      assert h == "Bearer" + [' '] + t;
      BearerAlone(t);
    } else {
      var rest := h[|t| + 8..];
      assert h == h[..|t| + 8] + rest;
      assert h[..|t| + 8] == "Bearer " + t + " ";
      assert h == "Bearer" + [' '] + (t + [' '] + rest);
      BearerThenMore(t, rest);
    }
  }

  lemma BearerAlone(t: string)
    requires t != [] && ' ' !in t
    ensures BearerToken(Some("Bearer" + [' '] + t)) == Accept(t)
  {
    assert ' ' !in "Bearer";
    SplitCons("Bearer", ' ', t);
    SplitNoSep(t, ' ');
  }

  lemma BearerThenMore(t: string, rest: string)
    requires t != [] && ' ' !in t
    ensures BearerToken(Some("Bearer" + [' '] + (t + [' '] + rest))) == Accept(t)
  {
    assert ' ' !in "Bearer";
    SplitCons("Bearer", ' ', t + [' '] + rest);
    SplitCons(t, ' ', rest);
  }

  /** The part of the guard inside the handlers' `try`: `jwt.verify` with
      `JWT_SECRET2` throws or the user lookup comes back empty, and either way the
      answer is 401 INVALID_ACCESS_TOKEN. */
  function Authenticate(db: Db, header: Option<string>, decode: string -> Option<Token>, nowMs: nat): (r: Checked<Id>)
    ensures r.Accept? ==> r.value in db.users
    ensures r.Reject? ==> r.status == 401
  {
    match BearerToken(header)
    case Reject(s, e) => Reject(s, e)
    case Accept(text) =>
      match Verify(decode, text, JwtSecret2, nowMs)
      case None => Reject(401, InvalidAccessToken)
      case Some(pid) =>
        match FindByProvider(db, pid)
        case None => Reject(401, InvalidAccessToken)
        case Some(uid) => Accept(uid)
  }

  /** Every rejection is a 401 with one of the three guard codes, and in a valid
      store the guard admits user `uid` exactly when the header is well formed and
      its token is an unexpired access token naming `uid`'s Kakao identity. */
  lemma AuthenticateExact(db: Db, header: Option<string>, decode: string -> Option<Token>, nowMs: nat, uid: Id)
    requires Valid(db)
    ensures Authenticate(db, header, decode, nowMs).Reject? ==>
              Authenticate(db, header, decode, nowMs).status == 401 &&
              Authenticate(db, header, decode, nowMs).error in {MissingAuthorizationHeader, InvalidAuthorizationFormat, InvalidAccessToken}
    ensures Authenticate(db, header, decode, nowMs) == Accept(uid) <==>
              && BearerToken(header).Accept?
              && uid in db.users
              && decode(BearerToken(header).value).Some?
              && decode(BearerToken(header).value).value.secret == JwtSecret2
              && decode(BearerToken(header).value).value.id == db.users[uid].providerId
              && nowMs / 1000 < decode(BearerToken(header).value).value.exp
  {
    if BearerToken(header).Accept? {
      var text := BearerToken(header).value;
      if decode(text).Some? {
        FindByProviderExact(db, decode(text).value.id);
      }
    }
  }

  /** A refresh token (signed with `JWT_SECRET`) never passes as an access token. */
  lemma RefreshTokenIsNotAccess(db: Db, h: string, text: string, decode: string -> Option<Token>,
                                id: string, signedAt: nat, nowMs: nat)
    requires BearerToken(Some(h)) == Accept(text)
    requires decode(text) == Some(Sign(JwtSecret, id, signedAt, RefreshTtl))
    ensures Authenticate(db, Some(h), decode, nowMs) == Reject(401, InvalidAccessToken)
  {
  }
}
