/** The e-mail verification handlers and the access-token refresh
    (BE/server/src/controllers/authController.js). A user record moves from no
    pending code, to a pending code with an expiry, to verified. */
module Auth {
  import opened Common
  import opened Tokens
  import opened Records
  import opened Guard
  import Validate
  import CodeGen

  /** A code is valid for five minutes. */
  const CodeTtlMs: nat := 5 * 60 * 1000

  /** `/^[^\s@]+@[^\s@]+\.(ac\.kr|edu)$/.test(s)`: a school address, ending in
      `.ac.kr` or `.edu`, with `@` at `i` and the final `.` at `j`. */
  predicate SchoolEmail(s: string) {
    exists i, j :: 0 <= i < |s| && 0 <= j < |s| && SchoolEmailAt(s, i, j)
  }

  predicate SchoolEmailAt(s: string, i: int, j: int) {
    0 < i && i + 1 < j && j < |s| && s[i] == '@' && s[j] == '.' &&
    Validate.AllPlain(s[..i]) && Validate.AllPlain(s[i + 1..j]) &&
    (s[j + 1..] == "ac.kr" || s[j + 1..] == "edu")
  }

  /** Every address the server accepts as a school address also passes the
      client's general e-mail check. */
  lemma SchoolEmailPassesClientCheck(s: string)
    requires SchoolEmail(s)
    ensures Validate.ValidateEmail(s)
  {
    var i, j :| 0 <= i < |s| && 0 <= j < |s| && SchoolEmailAt(s, i, j);
    var tld := s[j + 1..];
    assert Validate.AllPlain(tld) by {
      forall k | 0 <= k < |tld| ensures Validate.Plain(tld[k]) {
        assert tld[k] in "ac.kredu";
      }
    }
    assert Validate.EmailAt(s, i, j);
  }

  /** The user record after a code was issued. */
  function Pending(u: User, email: string, code: string, nowMs: nat): User {
    u.(email := Some(email), code := Some(code), expiresAt := Some(nowMs + CodeTtlMs))
  }

  /** The user record after a successful verification. */
  function Verified(u: User): User {
    u.(emailVerified := true, code := None, expiresAt := None)
  }

  /** `sendEmail`: the header checks, the e-mail checks, then the token; `code`
      is the value of `generateCode()` and `delivered` whether the mail
      transport succeeded. */
  function SendEmailStep(db: Db, header: Option<string>, email: Option<string>, code: string,
                         decode: string -> Option<Token>, nowMs: nat, delivered: bool): (r: Step<()>)
    ensures r.db.users.Keys == db.users.Keys && r.db.userOrder == db.userOrder
    ensures r.db.posts == db.posts && r.db.postOrder == db.postOrder && r.db.nextId == db.nextId
    ensures r.reply.Ok? ==> delivered && r.reply.status == 200
  {
    match BearerToken(header)
    case Reject(s, e) => Step(db, Err(s, e))
    case Accept(_) =>
      if !Truthy(email) then Step(db, Err(400, InvalidRequest))
      else if !SchoolEmail(email.value) then Step(db, Err(400, InvalidEmail))
      else
        match Authenticate(db, header, decode, nowMs)
        case Reject(s, e) => Step(db, Err(s, e))
        case Accept(uid) =>
          Step(WithUser(db, uid, Pending(db.users[uid], email.value, code, nowMs)),
               if delivered then Ok(200, ()) else Err(500, EmailSendFailed))
  }

  /** `verifyEmail`. A token that does not verify makes `jwt.verify` throw outside
      any `try`: the handler answers nothing. */
  function VerifyEmailStep(db: Db, header: Option<string>, code: Option<string>,
                           decode: string -> Option<Token>, nowMs: nat): (r: Step<()>)
    ensures !r.reply.Ok? ==> r.db == db
    ensures r.reply.Ok? ==> r.reply.status == 200 && Truthy(code)
    ensures r.db.users.Keys == db.users.Keys && r.db.userOrder == db.userOrder && r.db.posts == db.posts
  {
    match BearerToken(header)
    case Reject(s, e) => Step(db, Err(s, e))
    case Accept(token) =>
      if !Truthy(code) then Step(db, Err(400, InvalidRequest))
      else
        match Verify(decode, token, JwtSecret2, nowMs)
        case None => Step(db, Uncaught)
        case Some(pid) =>
          match FindByProvider(db, pid)
          case None => Step(db, Err(422, NoVerificationPending))
          case Some(uid) =>
            var u := db.users[uid];
            if !Truthy(u.code) || u.expiresAt.None? then Step(db, Err(422, NoVerificationPending))
            else if nowMs > u.expiresAt.value then Step(db, Err(422, CodeExpired))
            else if u.code.value != code.value then Step(db, Err(400, InvalidCode))
            else Step(WithUser(db, uid, Verified(u)), Ok(200, ()))
  }

  /** `accesstoken` (the later of its two identical definitions): exchange the
      `refreshtoken` cookie for a one-hour access token. A missing user makes
      `user.providerId` throw, which the `catch` turns into INVALID_REFRESH_TOKEN. */
  function AccessToken(db: Db, cookie: Option<string>, decode: string -> Option<Token>, nowMs: nat): (r: Reply<Token>)
    ensures r.Ok? ==> r.status == 200 && r.body.secret == JwtSecret2 && r.body.exp == nowMs / 1000 + AccessTtl
    ensures !r.Ok? ==> r.Err? && r.status == 401
  {
    if !Truthy(cookie) then Err(401, NoRefreshToken)
    else
      match Verify(decode, cookie.value, JwtSecret, nowMs)
      case None => Err(401, InvalidRefreshToken)
      case Some(pid) =>
        match FindByProvider(db, pid)
        case None => Err(401, InvalidRefreshToken)
        case Some(uid) => Ok(200, Sign(JwtSecret2, db.users[uid].providerId, nowMs, AccessTtl))
  }

  // ---------------------------------------------------------------------------
  // Properties of the verification state machine

  /** `sendEmail` runs its four request checks before it looks at the token, and
      none of them touches the store; only an authenticated request changes the
      store, and then exactly the caller's e-mail, code and expiry, whether or
      not the mail went out. */
  lemma SendEmailOutcome(db: Db, header: Option<string>, email: Option<string>, code: string,
                         decode: string -> Option<Token>, nowMs: nat, delivered: bool)
    ensures var r := SendEmailStep(db, header, email, code, decode, nowMs, delivered);
      && (BearerToken(header).Reject? ==> r == Step(db, Err(401, BearerToken(header).error)))
      && (BearerToken(header).Accept? && !Truthy(email) ==> r == Step(db, Err(400, InvalidRequest)))
      && (BearerToken(header).Accept? && Truthy(email) && !SchoolEmail(email.value) ==>
            r == Step(db, Err(400, InvalidEmail)))
      && (Truthy(email) && SchoolEmail(email.value) && Authenticate(db, header, decode, nowMs).Reject? ==>
            r == Step(db, Err(401, Authenticate(db, header, decode, nowMs).error)))
      && (Truthy(email) && SchoolEmail(email.value) && Authenticate(db, header, decode, nowMs).Accept? ==>
            var uid := Authenticate(db, header, decode, nowMs).value;
            && r.db == db.(users := db.users[uid := db.users[uid].(email := email, code := Some(code),
                                                                  expiresAt := Some(nowMs + 300000))])
            && r.reply == (if delivered then Ok(200, ()) else Err(500, EmailSendFailed)))
      && r.db == SendEmailStep(db, header, email, code, decode, nowMs, !delivered).db
  {
    if Authenticate(db, header, decode, nowMs).Reject? {
      AuthenticateRejectIs401(db, header, decode, nowMs);
    }
  }

  /** The code `sendEmail` stores is the one `generateCode()` draws: four
      characters from `1`-`9`, which the client's four-digit check accepts, so
      the user can type it back. */
  lemma SendEmailStoresGeneratedCode(db: Db, header: Option<string>, email: Option<string>, rolls: seq<real>,
                                     decode: string -> Option<Token>, nowMs: nat, delivered: bool)
    requires CodeGen.Rolls(rolls) && CodeGen.DefaultLength <= |rolls|
    ensures var r := SendEmailStep(db, header, email, CodeGen.Code(CodeGen.DefaultLength, rolls), decode, nowMs, delivered);
      BearerToken(header).Accept? && Truthy(email) && SchoolEmail(email.value) &&
      Authenticate(db, header, decode, nowMs).Accept? ==>
        var c := r.db.users[Authenticate(db, header, decode, nowMs).value].code;
        && c.Some? && |c.value| == 4 && Validate.ValidateAuthNumber(c.value)
        && (forall k :: 0 <= k < |c.value| ==> c.value[k] in CodeGen.Alphabet)
  {
    CodeGen.DefaultCodePassesClientCheck(rolls);
  }

  lemma AuthenticateRejectIs401(db: Db, header: Option<string>, decode: string -> Option<Token>, nowMs: nat)
    ensures Authenticate(db, header, decode, nowMs).Reject? ==> Authenticate(db, header, decode, nowMs).status == 401
  {
  }

  lemma SendEmailKeepsValid(db: Db, header: Option<string>, email: Option<string>, code: string,
                            decode: string -> Option<Token>, nowMs: nat, delivered: bool)
    requires Valid(db)
    ensures Valid(SendEmailStep(db, header, email, code, decode, nowMs, delivered).db)
  {
    var a := Authenticate(db, header, decode, nowMs);
    if BearerToken(header).Accept? && Truthy(email) && SchoolEmail(email.value) && a.Accept? {
      UpdateUserValid(db, a.value, Pending(db.users[a.value], email.value, code, nowMs));
    }
  }

  lemma VerifyEmailKeepsValid(db: Db, header: Option<string>, code: Option<string>,
                              decode: string -> Option<Token>, nowMs: nat)
    requires Valid(db)
    ensures Valid(VerifyEmailStep(db, header, code, decode, nowMs).db)
  {
    var r := VerifyEmailStep(db, header, code, decode, nowMs);
    if r.reply.Ok? {
      var pid := Verify(decode, BearerToken(header).value, JwtSecret2, nowMs).value;
      var uid := FindByProvider(db, pid).value;
      UpdateUserValid(db, uid, Verified(db.users[uid]));
    }
  }

  /** Every reply of `verifyEmail` other than 200 leaves the store as it was. */
  lemma VerifyEmailFailureChangesNothing(db: Db, header: Option<string>, code: Option<string>,
                                         decode: string -> Option<Token>, nowMs: nat)
    ensures !VerifyEmailStep(db, header, code, decode, nowMs).reply.Ok? ==>
              VerifyEmailStep(db, header, code, decode, nowMs).db == db
  {
  }

  /** `verifyEmail` succeeds exactly when the token names a stored user whose
      pending code equals the one sent and whose deadline has not passed; it then
      marks that user verified, clears the code and the expiry, and changes
      nothing else. */
  lemma VerifyEmailOutcome(db: Db, header: Option<string>, code: Option<string>,
                           decode: string -> Option<Token>, nowMs: nat)
    ensures var r := VerifyEmailStep(db, header, code, decode, nowMs);
      r.reply.Ok? <==>
        && BearerToken(header).Accept? && Truthy(code)
        && Verify(decode, BearerToken(header).value, JwtSecret2, nowMs).Some?
        && VerifiesPending(db, Verify(decode, BearerToken(header).value, JwtSecret2, nowMs).value, code.value, nowMs)
    ensures var r := VerifyEmailStep(db, header, code, decode, nowMs);
      r.reply.Ok? ==>
        var uid := FindByProvider(db, Verify(decode, BearerToken(header).value, JwtSecret2, nowMs).value).value;
        && r.reply == Ok(200, ())
        && r.db == db.(users := db.users[uid := db.users[uid].(emailVerified := true, code := None, expiresAt := None)])
  {
  }

  /** The user with identity `pid` has `code` pending, due no earlier than `nowMs`. */
  predicate VerifiesPending(db: Db, pid: string, code: string, nowMs: nat) {
    && FindByProvider(db, pid).Some?
    && var u := db.users[FindByProvider(db, pid).value];
    && u.code == Some(code) && code != []
    && u.expiresAt.Some? && nowMs <= u.expiresAt.value
  }

  /** After a code `c` was issued at `t0` to the caller, verifying it at `t1`
      (with the access token still valid) succeeds exactly when `t1 <= t0 +
      300000` (the expiry instant itself is accepted); a late correct code gets
      CODE_EXPIRED, and a different code in time gets INVALID_CODE and changes
      nothing. */
  lemma {:induction false} VerifyAfterSend(db: Db, header: Option<string>, email: string, c: string, other: string,
                                           decode: string -> Option<Token>, t0: nat, t1: nat, delivered: bool)
    requires Valid(db)
    requires var s := SendEmailStep(db, header, Some(email), c, decode, t0, delivered);
      s.reply == Ok(200, ()) || s.reply == Err(500, EmailSendFailed)
    requires c != [] && other != [] && other != c
    requires Verify(decode, BearerToken(header).value, JwtSecret2, t1).Some?
    ensures var s := SendEmailStep(db, header, Some(email), c, decode, t0, delivered);
      && VerifyEmailStep(s.db, header, Some(c), decode, t1).reply ==
           (if t1 <= t0 + 300000 then Ok(200, ()) else Err(422, CodeExpired))
      && (t1 <= t0 + 300000 ==> VerifyEmailStep(s.db, header, Some(other), decode, t1) == Step(s.db, Err(400, InvalidCode)))
  {
    var s := SendEmailStep(db, header, Some(email), c, decode, t0, delivered);
    var a := Authenticate(db, header, decode, t0);
    assert a.Accept?;
    var uid := a.value;
    var pid := Verify(decode, BearerToken(header).value, JwtSecret2, t0).value;
    assert FindByProvider(db, pid) == Some(uid);
    assert s.db == WithUser(db, uid, Pending(db.users[uid], email, c, t0));
    FirstWithProviderUpdate(db.userOrder, db.users, uid, Pending(db.users[uid], email, c, t0), pid);
    assert FindByProvider(s.db, pid) == Some(uid);
  }

  /** A code is single-use: once verification succeeded, the same request (or any
      other code) made while the token is valid gets NO_VERIFICATION_PENDING, and
      the caller is now marked verified. */
  lemma {:induction false} VerifyIsSingleUse(db: Db, header: Option<string>, code: Option<string>, again: Option<string>,
                                             decode: string -> Option<Token>, t1: nat, t2: nat)
    requires VerifyEmailStep(db, header, code, decode, t1).reply.Ok?
    requires Truthy(again)
    requires Verify(decode, BearerToken(header).value, JwtSecret2, t2) == Verify(decode, BearerToken(header).value, JwtSecret2, t1)
    ensures var d := VerifyEmailStep(db, header, code, decode, t1).db;
      && VerifyEmailStep(d, header, again, decode, t2) == Step(d, Err(422, NoVerificationPending))
      && var pid := Verify(decode, BearerToken(header).value, JwtSecret2, t1).value;
         FindByProvider(d, pid).Some? && d.users[FindByProvider(d, pid).value].emailVerified
  {
    var pid := Verify(decode, BearerToken(header).value, JwtSecret2, t1).value;
    var uid := FindByProvider(db, pid).value;
    var d := VerifyEmailStep(db, header, code, decode, t1).db;
    assert d == WithUser(db, uid, Verified(db.users[uid]));
    FirstWithProviderUpdate(db.userOrder, db.users, uid, Verified(db.users[uid]), pid);
  }

  /** Only the latest code counts: after two requests, with codes `c1` and then
      `c2`, the first code is refused as INVALID_CODE while the deadline of the
      second has not passed. */
  lemma OnlyLatestCodeCounts(db: Db, header: Option<string>, email: string, c1: string, c2: string,
                             decode: string -> Option<Token>, t0: nat, t1: nat, t2: nat, d1: bool, d2: bool)
    requires Valid(db)
    requires var s1 := SendEmailStep(db, header, Some(email), c1, decode, t0, d1);
      && (s1.reply == Ok(200, ()) || s1.reply == Err(500, EmailSendFailed))
      && var s2 := SendEmailStep(s1.db, header, Some(email), c2, decode, t1, d2);
         s2.reply == Ok(200, ()) || s2.reply == Err(500, EmailSendFailed)
    requires c1 != [] && c2 != [] && c1 != c2 && t2 <= t1 + 300000
    requires Verify(decode, BearerToken(header).value, JwtSecret2, t2).Some?
    ensures var s1 := SendEmailStep(db, header, Some(email), c1, decode, t0, d1);
      var s2 := SendEmailStep(s1.db, header, Some(email), c2, decode, t1, d2);
      VerifyEmailStep(s2.db, header, Some(c1), decode, t2) == Step(s2.db, Err(400, InvalidCode))
  {
    var s1 := SendEmailStep(db, header, Some(email), c1, decode, t0, d1);
    SendEmailKeepsValid(db, header, Some(email), c1, decode, t0, d1);
    VerifyAfterSend(s1.db, header, email, c2, c1, decode, t1, t2, d2);
  }

  // ---------------------------------------------------------------------------
  // Properties of the token refresh

  /** A refresh cookie yields an access token exactly when it verifies with
      `JWT_SECRET` and names a stored user; the issued token names that user,
      is signed with `JWT_SECRET2` and lasts one hour. */
  lemma AccessTokenExact(db: Db, cookie: Option<string>, decode: string -> Option<Token>, nowMs: nat)
    requires Valid(db)
    ensures var r := AccessToken(db, cookie, decode, nowMs);
      && (r.Ok? <==> Truthy(cookie) && Verify(decode, cookie.value, JwtSecret, nowMs).Some? &&
                     exists uid :: uid in db.users && db.users[uid].providerId == Verify(decode, cookie.value, JwtSecret, nowMs).value)
      && (r.Ok? ==> r.status == 200 && r.body.secret == JwtSecret2 &&
                    r.body.id == Verify(decode, cookie.value, JwtSecret, nowMs).value &&
                    r.body.exp == nowMs / 1000 + 3600)
      && (!r.Ok? ==> r == Err(401, if Truthy(cookie) then InvalidRefreshToken else NoRefreshToken))
  {
    if Truthy(cookie) && Verify(decode, cookie.value, JwtSecret, nowMs).Some? {
      FindByProviderExact(db, Verify(decode, cookie.value, JwtSecret, nowMs).value);
    }
  }

  /** The two secrets chain: a refresh cookie signed at login refreshes into an
      access token that the bearer guard then accepts for the same user, for the
      hour after it was issued. */
  lemma RefreshThenAuthenticate(db: Db, uid: Id, cookie: string, text: string,
                                decode: string -> Option<Token>, t0: nat, t1: nat, t2: nat)
    requires Valid(db) && uid in db.users
    requires decode(cookie) == Some(Sign(JwtSecret, db.users[uid].providerId, t0, RefreshTtl))
    requires cookie != [] && t1 / 1000 < t0 / 1000 + RefreshTtl
    requires decode(text) == Some(Sign(JwtSecret2, db.users[uid].providerId, t1, AccessTtl))
    requires text != [] && ' ' !in text && t2 / 1000 < t1 / 1000 + AccessTtl
    ensures AccessToken(db, Some(cookie), decode, t1) == Ok(200, decode(text).value)
    ensures Authenticate(db, Some("Bearer " + text), decode, t2) == Accept(uid)
  {
    FindByProviderExact(db, db.users[uid].providerId);
    BearerTokenShape("Bearer " + text, text);
  }

  // ---------------------------------------------------------------------------
  // The handlers on the shared store

  /** `sendEmail` on the store; `rolls` are the `Math.random()` values
      `generateCode()` draws. */
  method SendEmail(st: Store, header: Option<string>, email: Option<string>, rolls: seq<real>,
                   decode: string -> Option<Token>, nowMs: nat, delivered: bool) returns (r: Reply<()>)
    requires CodeGen.Rolls(rolls) && CodeGen.DefaultLength <= |rolls|
    modifies st
    ensures Step(st.State(), r) ==
            SendEmailStep(old(st.State()), header, email, CodeGen.Code(CodeGen.DefaultLength, rolls), decode, nowMs, delivered)
  {
    var bearer := BearerToken(header);
    if bearer.Reject? {
      return Err(bearer.status, bearer.error);
    }
    if !Truthy(email) {
      return Err(400, InvalidRequest);
    }
    if !SchoolEmail(email.value) {
      return Err(400, InvalidEmail);
    }
    var code := CodeGen.GenerateCode(CodeGen.DefaultLength, rolls);
    var pid := Verify(decode, bearer.value, JwtSecret2, nowMs);
    if pid.None? {
      return Err(401, InvalidAccessToken);
    }
    var uid := st.FindUser(pid.value);
    if uid.None? {
      return Err(401, InvalidAccessToken);
    }
    st.users := st.users[uid.value := Pending(st.users[uid.value], email.value, code, nowMs)];
    if delivered {
      r := Ok(200, ());
    } else {
      r := Err(500, EmailSendFailed);
    }
  }

  method VerifyEmail(st: Store, header: Option<string>, code: Option<string>,
                     decode: string -> Option<Token>, nowMs: nat) returns (r: Reply<()>)
    modifies st
    ensures Step(st.State(), r) == VerifyEmailStep(old(st.State()), header, code, decode, nowMs)
  {
    var bearer := BearerToken(header);
    if bearer.Reject? {
      return Err(bearer.status, bearer.error);
    }
    if !Truthy(code) {
      return Err(400, InvalidRequest);
    }
    var pid := Verify(decode, bearer.value, JwtSecret2, nowMs);
    if pid.None? {
      return Uncaught;
    }
    var uid := st.FindUser(pid.value);
    if uid.None? {
      return Err(422, NoVerificationPending);
    }
    var u := st.users[uid.value];
    if !Truthy(u.code) || u.expiresAt.None? {
      return Err(422, NoVerificationPending);
    }
    if nowMs > u.expiresAt.value {
      return Err(422, CodeExpired);
    }
    if u.code.value != code.value {
      return Err(400, InvalidCode);
    }
    st.users := st.users[uid.value := Verified(u)];
    r := Ok(200, ());
  }
}
