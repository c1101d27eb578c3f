/** The read-only user handlers (BE/server/src/controllers/userController.js):
    the caller's own profile, another user's public card, and the caller's
    written and applied posts. None of them changes the store. */
module UserViews {
  import opened Common
  import opened Tokens
  import opened Records
  import opened Guard
  import Login

  /** The `myinfo` answer. */
  datatype Info = Info(nickname: Option<string>, profileimage: Option<string>, kakaomail: string,
                       email: Option<string>, role: string, subscription: bool)

  /** The `userdata` answer. */
  datatype Card = Card(nickname: Option<string>, profileimage: Option<string>, kakaomail: string, email: Option<string>)

  /** One written post in the `myposts` answer. */
  datatype Written = Written(postId: Id, category: string, title: string, subtitle: string,
                             appliedTalents: nat, address: string, status: Option<string>,
                             createdAt: int, teachAt: int)

  /** One applied post in the `myposts` answer, with its writer's public data. */
  datatype Applied = Applied(postId: Id, writerName: Option<string>, writerprofileimage: Option<string>,
                             writerEmail: Option<string>, category: string, title: string, subtitle: string,
                             address: string, status: Option<string>, createdAt: int, teachAt: int)

  datatype MyPostsBody = MyPostsBody(writtenPosts: seq<Written>, appliedPosts: seq<Applied>)

  /** `role || ""`. */
  function ShownRole(role: Option<string>): (r: string)
    ensures r == [] <==> !Truthy(role)
    ensures Truthy(role) ==> r == role.value
  {
    if Truthy(role) then role.value else ""
  }

  /** `user.subscription != null`: false only for null or an absent value. */
  function Subscribed(s: Subscription): (b: bool)
    ensures b <==> s != NoSubscription
  {
    !s.NoSubscription?
  }

  function InfoOf(u: User): Info {
    Info(u.nickname, u.profileimage, u.kakaomail, u.email, ShownRole(u.role), Subscribed(u.subscription))
  }

  /** `myinfo`: the guard, then the caller's profile. */
  function MyInfo(db: Db, header: Option<string>, decode: string -> Option<Token>, nowMs: nat): (r: Reply<Info>)
    ensures r.Ok? <==> Authenticate(db, header, decode, nowMs).Accept?
    ensures r.Ok? ==> r.status == 200 && r.body == InfoOf(db.users[Authenticate(db, header, decode, nowMs).value])
    ensures !r.Ok? ==> r.Err? && r.status == 401
  {
    match Authenticate(db, header, decode, nowMs)
    case Reject(s, e) => Err(s, e)
    case Accept(uid) => Ok(200, InfoOf(db.users[uid]))
  }

  /** A user just created by login reports no role (`""`) but, because login
      stores `subscription: false` rather than null, reports a subscription. */
  lemma NewUserReportsSubscribed(p: Login.Profile)
    requires Truthy(p.kakaomail)
    ensures InfoOf(Login.NewUser(p)).subscription && InfoOf(Login.NewUser(p)).role == ""
  {
  }

  /** `userdata`: a malformed id makes `findById` throw and an unknown one finds
      nothing; both answer 400 INVALID_USERID. */
  function UserData(db: Db, userId: RawId): (r: Reply<Card>)
    ensures r.Ok? <==> userId.Oid? && userId.id in db.users
    ensures !r.Ok? ==> r == Err(400, InvalidUserId)
    ensures r.Ok? ==> var u := db.users[userId.id];
              r == Ok(200, Card(u.nickname, u.profileimage, u.kakaomail, u.email))
  {
    match userId
    case NotAnId => Err(400, InvalidUserId)
    case Oid(x) =>
      if x !in db.users then Err(400, InvalidUserId)
      else
        var u := db.users[x];
        Ok(200, Card(u.nickname, u.profileimage, u.kakaomail, u.email))
  }

  /** A post id in a user's list is never an id for `userdata`: the store keeps
      users and posts apart. */
  lemma UserDataRejectsPostIds(db: Db, pid: Id)
    requires Valid(db) && pid in db.posts
    ensures UserData(db, Oid(pid)) == Err(400, InvalidUserId)
  {
  }

  function WrittenOf(pid: Id, p: Post): Written {
    Written(pid, p.category, p.title, p.subtitle, |p.appliedTalents|, p.address, p.status, p.createdAt, p.teachAt)
  }

  function AppliedOf(pid: Id, p: Post, w: User): Applied {
    Applied(pid, w.nickname, w.profileimage, w.email, p.category, p.title, p.subtitle, p.address, p.status,
            p.createdAt, p.teachAt)
  }

  /** Every post the lists name can be read, and so can every applied post's
      writer; otherwise reading a field of `null` throws. */
  predicate Resolvable(db: Db, u: User) {
    && (forall k :: 0 <= k < |u.writtenPosts| ==> u.writtenPosts[k] in db.posts)
    && (forall k :: 0 <= k < |u.appliedPosts| ==>
          u.appliedPosts[k] in db.posts && db.posts[u.appliedPosts[k]].writer in db.users)
  }

  /** In a consistent store every authenticated `myposts` request resolves. */
  lemma ValidResolves(db: Db, uid: Id)
    requires Valid(db) && uid in db.users
    ensures Resolvable(db, db.users[uid])
  {
    var u := db.users[uid];
    forall k | 0 <= k < |u.writtenPosts| ensures u.writtenPosts[k] in db.posts {
      assert u.writtenPosts[k] in u.writtenPosts;
    }
    forall k | 0 <= k < |u.appliedPosts|
      ensures u.appliedPosts[k] in db.posts && db.posts[u.appliedPosts[k]].writer in db.users
    {
      assert u.appliedPosts[k] in u.appliedPosts;
    }
  }

  /** `myposts`: the two `for … of` loops over the caller's lists, in list order;
      a post or writer that is not found throws, and that answers 401. */
  method MyPosts(st: Store, header: Option<string>, decode: string -> Option<Token>, nowMs: nat)
    returns (r: Reply<MyPostsBody>)
    ensures var a := Authenticate(st.State(), header, decode, nowMs);
      && (r.Ok? <==> a.Accept? && Resolvable(st.State(), st.users[a.value]))
      && (!r.Ok? ==> r.Err? && r.status == 401)
      && (r.Ok? ==>
            var u := st.users[a.value];
            && r.status == 200
            && |r.body.writtenPosts| == |u.writtenPosts|
            && (forall k :: 0 <= k < |u.writtenPosts| ==>
                  r.body.writtenPosts[k] == WrittenOf(u.writtenPosts[k], st.posts[u.writtenPosts[k]]))
            && |r.body.appliedPosts| == |u.appliedPosts|
            && (forall k :: 0 <= k < |u.appliedPosts| ==>
                  var p := st.posts[u.appliedPosts[k]];
                  r.body.appliedPosts[k] == AppliedOf(u.appliedPosts[k], p, st.users[p.writer])))
  {
    var auth := Authenticate(st.State(), header, decode, nowMs);
    if auth.Reject? {
      return Err(auth.status, auth.error);
    }
    var u := st.users[auth.value];
    var written: seq<Written> := [];
    var i := 0;
    while i < |u.writtenPosts|
      invariant 0 <= i <= |u.writtenPosts| && |written| == i
      invariant forall k :: 0 <= k < i ==>
                  u.writtenPosts[k] in st.posts && written[k] == WrittenOf(u.writtenPosts[k], st.posts[u.writtenPosts[k]])
    {
      var pid := u.writtenPosts[i];
      if pid !in st.posts {
        return Err(401, InvalidAccessToken);
      }
      written := written + [WrittenOf(pid, st.posts[pid])];
      i := i + 1;
    }
    var applied: seq<Applied> := [];
    var j := 0;
    while j < |u.appliedPosts|
      invariant 0 <= j <= |u.appliedPosts| && |applied| == j
      invariant forall k :: 0 <= k < j ==>
                  u.appliedPosts[k] in st.posts && st.posts[u.appliedPosts[k]].writer in st.users &&
                  applied[k] == AppliedOf(u.appliedPosts[k], st.posts[u.appliedPosts[k]],
                                          st.users[st.posts[u.appliedPosts[k]].writer])
    {
      var pid := u.appliedPosts[j];
      if pid !in st.posts || st.posts[pid].writer !in st.users {
        return Err(401, InvalidAccessToken);
      }
      var p := st.posts[pid];
      applied := applied + [AppliedOf(pid, p, st.users[p.writer])];
      j := j + 1;
    }
    r := Ok(200, MyPostsBody(written, applied));
  }
}
