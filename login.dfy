/** Kakao login (BE/server/src/kakao/login.js): find or create the user for the
    Kakao identity, issue a 30-day refresh token in a cookie, and redirect. The
    two Kakao HTTP calls are one input: the profile they produce, or None when
    either call (or reading the profile out of the answer) threw. */
module Login {
  import opened Common
  import opened Tokens
  import opened Records

  /** The fields read from `/v2/user/me`. */
  datatype Profile = Profile(id: string, profileimage: Option<string>, nickname: Option<string>,
                             kakaomail: Option<string>)

  /** `res.cookie(name, value, options)`. */
  datatype Cookie = Cookie(name: string, value: Token, maxAgeMs: nat, httpOnly: bool, secure: bool, sameSite: string)

  /** The store afterwards, the cookie set (if any) and the redirect target. */
  datatype LoginResult = LoginResult(db: Db, cookie: Option<Cookie>, redirect: string)

  const RefreshCookieMaxAgeMs: nat := 1000 * 60 * 60 * 24 * 30

  /** The record created for a first-time Kakao identity. */
  function NewUser(p: Profile): User
    requires Truthy(p.kakaomail)
  {
    User(p.id, p.kakaomail.value, p.profileimage, p.nickname, None, false, None, None, Flag(false), None, [], [])
  }

  /** `newUser.save()` passes validation: both required strings are present. */
  predicate Savable(p: Profile) {
    p.id != [] && Truthy(p.kakaomail)
  }

  /** The store after a new user was saved under the next ObjectId. */
  function Insert(db: Db, u: User): Db {
    Db(db.users[db.nextId := u], db.userOrder + [db.nextId], db.posts, db.postOrder, db.nextId + 1)
  }

  function RefreshCookie(p: Profile, nowMs: nat): Cookie {
    Cookie("refreshtoken", Sign(JwtSecret, p.id, nowMs, RefreshTtl), RefreshCookieMaxAgeMs, true, true, "None")
  }

  function Issue(db: Db, u: User, p: Profile, nowMs: nat, clientUrl: string): LoginResult {
    LoginResult(db, Some(RefreshCookie(p, nowMs)), clientUrl + (if u.emailVerified then "/home" else "/role"))
  }

  /** `kakaoLogin`. Any exception, including a failed validation of the new user,
      ends in the redirect to the client's root. */
  function KakaoLoginStep(db: Db, profile: Option<Profile>, nowMs: nat, clientUrl: string): (r: LoginResult)
    ensures r.db.posts == db.posts && r.db.postOrder == db.postOrder
    ensures r.cookie.None? ==> r.db == db && r.redirect == clientUrl + "/"
    ensures r.cookie.Some? ==> profile.Some? && r.cookie.value == RefreshCookie(profile.value, nowMs)
  {
    match profile
    case None => LoginResult(db, None, clientUrl + "/")
    case Some(p) =>
      match FindByProvider(db, p.id)
      case Some(uid) => Issue(db, db.users[uid], p, nowMs, clientUrl)
      case None =>
        if !Savable(p) then LoginResult(db, None, clientUrl + "/")
        else Issue(Insert(db, NewUser(p)), NewUser(p), p, nowMs, clientUrl)
  }

  /** Every login ends in exactly one of three redirects; the refresh cookie is set
      exactly when it is not the root, and then it is `refreshtoken`, 30 days,
      httpOnly, secure, sameSite None, holding a `JWT_SECRET` claim for the Kakao
      id. A known identity is reused untouched and sent to `/home` once its
      e-mail is verified, to `/role` before; an unknown one adds exactly one
      user, created with defaults, and goes to `/role`; a failure creates
      nothing. */
  lemma LoginOutcome(db: Db, profile: Option<Profile>, nowMs: nat, clientUrl: string)
    requires Valid(db)
    ensures var r := KakaoLoginStep(db, profile, nowMs, clientUrl);
      && (r.redirect == clientUrl + "/" || r.redirect == clientUrl + "/home" || r.redirect == clientUrl + "/role")
      && (r.cookie.Some? <==> r.redirect != clientUrl + "/")
      && (r.cookie.Some? ==>
            r.cookie.value == Cookie("refreshtoken", Token(JwtSecret, profile.value.id, nowMs / 1000 + 2592000),
                                     2592000000, true, true, "None"))
      && (profile.None? ==> r.db == db && r.redirect == clientUrl + "/")
      && (profile.Some? && (exists u :: u in db.users && db.users[u].providerId == profile.value.id) ==>
            r.db == db)
      && (profile.Some? ==>
            forall u :: u in db.users && db.users[u].providerId == profile.value.id ==>
              r.redirect == clientUrl + (if db.users[u].emailVerified then "/home" else "/role"))
      && (profile.Some? && !(exists u :: u in db.users && db.users[u].providerId == profile.value.id) ==>
            if Savable(profile.value) then
              && r.db == db.(users := db.users[db.nextId := NewUser(profile.value)],
                             userOrder := db.userOrder + [db.nextId], nextId := db.nextId + 1)
              && db.nextId !in db.users
              && |r.db.users| == |db.users| + 1
              && r.redirect == clientUrl + "/role"
            else r.db == db && r.redirect == clientUrl + "/")
  {
    if profile.Some? {
      FindByProviderExact(db, profile.value.id);
      if FindByProvider(db, profile.value.id).None? && Savable(profile.value) {
        assert db.nextId !in db.users;
      }
    }
  }

  lemma LoginKeepsValid(db: Db, profile: Option<Profile>, nowMs: nat, clientUrl: string)
    requires Valid(db)
    ensures Valid(KakaoLoginStep(db, profile, nowMs, clientUrl).db)
  {
    if profile.Some? && FindByProvider(db, profile.value.id).None? && Savable(profile.value) {
      FindByProviderExact(db, profile.value.id);
      InsertValid(db, NewUser(profile.value));
    }
  }

  lemma InsertValid(db: Db, u: User)
    requires Valid(db) && UserSchemaOk(u) && u.code.None? && u.expiresAt.None?
    requires u.writtenPosts == [] && u.appliedPosts == []
    requires forall x :: x in db.users ==> db.users[x].providerId != u.providerId
    ensures Valid(Insert(db, u))
  {
    assert db.nextId !in db.users && db.nextId !in db.posts;
    InsertOrders(db, u);
    InsertUsers(db, u);
    InsertLinks(db, u);
  }

  lemma InsertOrders(db: Db, u: User)
    requires OrderOf(db.userOrder, db.users.Keys) && OrderOf(db.postOrder, db.posts.Keys) && IdsFresh(db)
    ensures var d := Insert(db, u);
      OrderOf(d.userOrder, d.users.Keys) && OrderOf(d.postOrder, d.posts.Keys) && IdsFresh(d)
  {
    assert db.nextId !in db.userOrder;
    NoDupAppend(db.userOrder, db.nextId);
  }

  lemma InsertUsers(db: Db, u: User)
    requires UniqueProviders(db.users) && PendingTogether(db.users) && UserListsNoDup(db)
    requires forall id :: id in db.users ==> UserSchemaOk(db.users[id])
    requires UserSchemaOk(u) && u.code.None? && u.expiresAt.None? && u.writtenPosts == [] && u.appliedPosts == []
    requires forall x :: x in db.users ==> db.users[x].providerId != u.providerId
    ensures var d := Insert(db, u);
      && UniqueProviders(d.users) && PendingTogether(d.users) && UserListsNoDup(d)
      && (forall id :: id in d.users ==> UserSchemaOk(d.users[id]))
  {
    var d := Insert(db, u);
    forall a, b | a in d.users && b in d.users && a != b
      ensures d.users[a].providerId != d.users[b].providerId
    {
      if a != db.nextId && b != db.nextId {
        assert db.users[a].providerId != db.users[b].providerId;
      }
    }
  }

  lemma InsertLinks(db: Db, u: User)
    requires Linked(db) && db.nextId !in db.users && u.writtenPosts == [] && u.appliedPosts == []
    ensures Linked(Insert(db, u))
  {
    InsertLinksForward(db, u);
    InsertLinksBack(db, u);
  }

  lemma InsertLinksForward(db: Db, u: User)
    requires WritersKnow(db) && ApplicantsKnow(db) && db.nextId !in db.users
    ensures WritersKnow(Insert(db, u)) && ApplicantsKnow(Insert(db, u))
  {
    var d := Insert(db, u);
    forall q | q in d.posts
      ensures d.posts[q].writer in d.users && q in d.users[d.posts[q].writer].writtenPosts
    {
      assert q in db.users[db.posts[q].writer].writtenPosts;
    }
    forall q, x | q in d.posts && x in d.posts[q].appliedTalents
      ensures x in d.users && q in d.users[x].appliedPosts
    {
      assert q in db.users[x].appliedPosts;
    }
  }

  lemma InsertLinksBack(db: Db, u: User)
    requires WrittenBack(db) && AppliedBack(db) && UserListsNoDup(db) && db.nextId !in db.users
    requires u.writtenPosts == [] && u.appliedPosts == []
    ensures WrittenBack(Insert(db, u)) && AppliedBack(Insert(db, u)) && UserListsNoDup(Insert(db, u))
  {
    var d := Insert(db, u);
    forall x, q | x in d.users && q in d.users[x].writtenPosts
      ensures q in d.posts && d.posts[q].writer == x
    {
      assert x != db.nextId && q in db.users[x].writtenPosts;
    }
    forall x, q | x in d.users && q in d.users[x].appliedPosts
      ensures q in d.posts && x in d.posts[q].appliedTalents
    {
      assert x != db.nextId && q in db.users[x].appliedPosts;
    }
    forall x | x in d.users
      ensures NoDup(d.users[x].writtenPosts) && NoDup(d.users[x].appliedPosts)
    {
      if x != db.nextId {
        assert NoDup(db.users[x].writtenPosts);
      }
    }
  }

  /** Logging in again with the same Kakao identity never adds a second user: the
      second login leaves the store exactly as the first left it. */
  lemma RepeatedLoginAddsNoUser(db: Db, p: Profile, t1: nat, t2: nat, clientUrl: string)
    requires Valid(db)
    ensures var d1 := KakaoLoginStep(db, Some(p), t1, clientUrl).db;
      KakaoLoginStep(d1, Some(p), t2, clientUrl).db == d1
  {
    var d1 := KakaoLoginStep(db, Some(p), t1, clientUrl).db;
    LoginKeepsValid(db, Some(p), t1, clientUrl);
    FindByProviderExact(db, p.id);
    if FindByProvider(db, p.id).None? && Savable(p) {
      assert d1.users[db.nextId].providerId == p.id;
    }
    FindByProviderExact(d1, p.id);
  }

  /** `kakaoLogin` on the shared store. */
  method KakaoLogin(st: Store, profile: Option<Profile>, nowMs: nat, clientUrl: string)
    returns (cookie: Option<Cookie>, redirect: string)
    modifies st
    ensures LoginResult(st.State(), cookie, redirect) == KakaoLoginStep(old(st.State()), profile, nowMs, clientUrl)
  {
    if profile.None? {
      return None, clientUrl + "/";
    }
    var p := profile.value;
    var found := st.FindUser(p.id);
    var user: User;
    if found.Some? {
      user := st.users[found.value];
    } else {
      if !Savable(p) {
        return None, clientUrl + "/";
      }
      user := NewUser(p);
      st.users := st.users[st.nextId := user];
      st.userOrder := st.userOrder + [st.nextId];
      st.nextId := st.nextId + 1;
    }
    cookie := Some(RefreshCookie(p, nowMs));
    if user.emailVerified {
      redirect := clientUrl + "/home";
    } else {
      redirect := clientUrl + "/role";
    }
  }
}
