/** The MongoDB records of the matching service (models/user.js, models/talent.js),
    the store that holds them, the consistency the handlers keep between them, and
    the shape of every HTTP reply. */
module Records {
  import opened Common

  /** A MongoDB ObjectId. Users and posts draw theirs from one counter, so the two
      collections never share an id. */
  type Id = nat

  /** An id as it arrives in a URL or a request body: either it casts to an
      ObjectId, or Mongoose throws a CastError. */
  datatype RawId = Oid(id: Id) | NotAnId

  /** The `subscription` field holds an arbitrary JSON value. `NoSubscription`
      stands for both `null` and an absent value. */
  datatype Subscription = NoSubscription | Flag(b: bool) | PushEndpoint(data: string)

  /** models/user.js. Optional schema paths are `Option`s; `null` and "not set"
      are both `None`. */
  datatype User = User(
    providerId: string,
    kakaomail: string,
    profileimage: Option<string>,
    nickname: Option<string>,
    email: Option<string>,
    emailVerified: bool,
    code: Option<string>,
    expiresAt: Option<int>,
    subscription: Subscription,
    role: Option<string>,
    writtenPosts: seq<Id>,
    appliedPosts: seq<Id>)

  /** models/talent.js. Dates are milliseconds since the epoch. */
  datatype Post = Post(
    writer: Id,
    appliedTalents: seq<Id>,
    matchedTalents: seq<Id>,
    category: string,
    title: string,
    subtitle: string,
    description: string,
    address: string,
    status: Option<string>,
    createdAt: int,
    teachAt: int)

  /** The two collections with the natural (insertion) order in which `find`
      returns documents, and the next ObjectId to hand out. */
  datatype Db = Db(users: map<Id, User>, userOrder: seq<Id>,
                   posts: map<Id, Post>, postOrder: seq<Id>, nextId: Id)

  const EmptyDb := Db(map[], [], map[], [], 1)

  /** A record passes Mongoose validation: `required` string paths are non-empty. */
  predicate UserSchemaOk(u: User) {
    u.providerId != [] && u.kakaomail != []
  }

  predicate PostSchemaOk(p: Post) {
    p.category != [] && p.title != [] && p.subtitle != [] && p.description != [] && p.address != []
  }

  /** `order` lists each key of a collection exactly once. */
  ghost predicate OrderOf(order: seq<Id>, keys: set<Id>) {
    NoDup(order) && forall id :: id in order <==> id in keys
  }

  ghost predicate IdsFresh(db: Db) {
    && (forall id :: id in db.users ==> id < db.nextId)
    && (forall id :: id in db.posts ==> id < db.nextId)
    && db.users.Keys !! db.posts.Keys
  }

  /** At most one user per Kakao identity: the schema has no unique index, so
      this rests on login's find-before-create. */
  ghost predicate UniqueProviders(users: map<Id, User>) {
    forall a, b :: a in users && b in users && a != b ==> users[a].providerId != users[b].providerId
  }

  /** A pending code and its expiry are set and cleared together. */
  ghost predicate PendingTogether(users: map<Id, User>) {
    forall id :: id in users ==> (users[id].code.Some? <==> users[id].expiresAt.Some?)
  }

  /** Applicants are listed once, matched users once, and only applicants are matched. */
  ghost predicate PostShape(p: Post) {
    && NoDup(p.appliedTalents)
    && NoDup(p.matchedTalents)
    && forall u :: u in p.matchedTalents ==> u in p.appliedTalents
  }

  /** Every post's writer exists and lists the post among its written posts. */
  ghost predicate WritersKnow(db: Db) {
    forall pid :: pid in db.posts ==>
      db.posts[pid].writer in db.users && pid in db.users[db.posts[pid].writer].writtenPosts
  }

  /** Every applicant exists and lists the post among its applied posts. */
  ghost predicate ApplicantsKnow(db: Db) {
    forall pid, u :: pid in db.posts && u in db.posts[pid].appliedTalents ==>
      u in db.users && pid in db.users[u].appliedPosts
  }

  /** Every written post exists and names that user as its writer. */
  ghost predicate WrittenBack(db: Db) {
    forall uid, pid :: uid in db.users && pid in db.users[uid].writtenPosts ==>
      pid in db.posts && db.posts[pid].writer == uid
  }

  /** Every applied post exists and lists that user as an applicant. */
  ghost predicate AppliedBack(db: Db) {
    forall uid, pid :: uid in db.users && pid in db.users[uid].appliedPosts ==>
      pid in db.posts && uid in db.posts[pid].appliedTalents
  }

  ghost predicate UserListsNoDup(db: Db) {
    forall uid :: uid in db.users ==>
      NoDup(db.users[uid].writtenPosts) && NoDup(db.users[uid].appliedPosts)
  }

  /** The cross-record references agree: a post is among its writer's written
      posts, and a user is among a post's applicants exactly when the post is among
      that user's applied posts. */
  ghost predicate Linked(db: Db) {
    WritersKnow(db) && ApplicantsKnow(db) && WrittenBack(db) && AppliedBack(db) && UserListsNoDup(db)
  }

  ghost predicate Valid(db: Db) {
    && OrderOf(db.userOrder, db.users.Keys)
    && OrderOf(db.postOrder, db.posts.Keys)
    && IdsFresh(db)
    && UniqueProviders(db.users)
    && PendingTogether(db.users)
    && (forall id :: id in db.users ==> UserSchemaOk(db.users[id]))
    && (forall pid :: pid in db.posts ==> PostSchemaOk(db.posts[pid]) && PostShape(db.posts[pid]))
    && Linked(db)
  }

  lemma EmptyValid()
    ensures Valid(EmptyDb)
  {
  }

  /** `User.findOne({providerId})`: the first user in natural order with that identity. */
  function FirstWithProvider(order: seq<Id>, users: map<Id, User>, pid: string): (r: Option<Id>)
    ensures r.Some? ==> r.value in order && r.value in users && users[r.value].providerId == pid
    ensures r.None? ==> forall k :: 0 <= k < |order| && order[k] in users ==> users[order[k]].providerId != pid
  {
    if |order| == 0 then None
    else if order[0] in users && users[order[0]].providerId == pid then Some(order[0])
    else FirstWithProvider(order[1..], users, pid)
  }

  function FindByProvider(db: Db, pid: string): Option<Id> {
    FirstWithProvider(db.userOrder, db.users, pid)
  }

  /** In a valid store, `findOne` finds a user exactly when one has that identity,
      and then it is that one. */
  lemma FindByProviderExact(db: Db, pid: string)
    requires Valid(db)
    ensures FindByProvider(db, pid).Some? <==> exists id :: id in db.users && db.users[id].providerId == pid
    ensures forall id :: id in db.users && db.users[id].providerId == pid ==> FindByProvider(db, pid) == Some(id)
  {
    var r := FindByProvider(db, pid);
    forall id | id in db.users && db.users[id].providerId == pid
      ensures r == Some(id)
    {
      assert id in db.userOrder;
      var k :| 0 <= k < |db.userOrder| && db.userOrder[k] == id;
      assert r.Some?;
    }
  }

  /** The store after `user.save()` wrote back record `uid`. */
  function WithUser(db: Db, uid: Id, u: User): Db {
    db.(users := db.users[uid := u])
  }

  /** Rewriting a user without touching its identity leaves every lookup as it was. */
  lemma {:induction false} FirstWithProviderUpdate(order: seq<Id>, users: map<Id, User>, uid: Id, u: User, pid: string)
    requires uid in users && u.providerId == users[uid].providerId
    ensures FirstWithProvider(order, users[uid := u], pid) == FirstWithProvider(order, users, pid)
    decreases |order|
  {
    if |order| > 0 {
      FirstWithProviderUpdate(order[1..], users, uid, u, pid);
    }
  }

  /** `d` differs from `db` at most in user fields other than the identity and the
      post lists. */
  ghost predicate SameSkeleton(db: Db, d: Db) {
    && d.posts == db.posts && d.userOrder == db.userOrder && d.postOrder == db.postOrder
    && d.nextId == db.nextId && d.users.Keys == db.users.Keys
    && forall x :: x in db.users ==>
         && d.users[x].providerId == db.users[x].providerId
         && d.users[x].writtenPosts == db.users[x].writtenPosts
         && d.users[x].appliedPosts == db.users[x].appliedPosts
  }

  lemma SkeletonValid(db: Db, d: Db)
    requires Valid(db) && SameSkeleton(db, d)
    requires forall x :: x in d.users ==> UserSchemaOk(d.users[x])
    requires PendingTogether(d.users)
    ensures Valid(d)
  {
    SkeletonKeepsIdentities(db, d);
    SkeletonKeepsLinks(db, d);
  }

  lemma SkeletonKeepsIdentities(db: Db, d: Db)
    requires OrderOf(db.userOrder, db.users.Keys) && IdsFresh(db) && UniqueProviders(db.users)
    requires SameSkeleton(db, d)
    ensures OrderOf(d.userOrder, d.users.Keys) && IdsFresh(d) && UniqueProviders(d.users)
  {
    forall a, b | a in d.users && b in d.users && a != b
      ensures d.users[a].providerId != d.users[b].providerId
    {
      assert db.users[a].providerId != db.users[b].providerId;
    }
  }

  lemma SkeletonKeepsLinks(db: Db, d: Db)
    requires Linked(db) && SameSkeleton(db, d)
    ensures Linked(d)
  {
    SkeletonWriters(db, d);
    SkeletonApplicants(db, d);
    SkeletonWritten(db, d);
    SkeletonApplied(db, d);
    SkeletonNoDup(db, d);
  }

  lemma SkeletonWriters(db: Db, d: Db)
    requires WritersKnow(db) && SameSkeleton(db, d)
    ensures WritersKnow(d)
  {
    forall pid | pid in d.posts
      ensures d.posts[pid].writer in d.users && pid in d.users[d.posts[pid].writer].writtenPosts
    {
      assert pid in db.users[db.posts[pid].writer].writtenPosts;
    }
  }

  lemma SkeletonApplicants(db: Db, d: Db)
    requires ApplicantsKnow(db) && SameSkeleton(db, d)
    ensures ApplicantsKnow(d)
  {
    forall pid, x | pid in d.posts && x in d.posts[pid].appliedTalents
      ensures x in d.users && pid in d.users[x].appliedPosts
    {
      assert pid in db.users[x].appliedPosts;
    }
  }

  lemma SkeletonWritten(db: Db, d: Db)
    requires WrittenBack(db) && SameSkeleton(db, d)
    ensures WrittenBack(d)
  {
    forall x, pid | x in d.users && pid in d.users[x].writtenPosts
      ensures pid in d.posts && d.posts[pid].writer == x
    {
      assert pid in db.users[x].writtenPosts;
    }
  }

  lemma SkeletonApplied(db: Db, d: Db)
    requires AppliedBack(db) && SameSkeleton(db, d)
    ensures AppliedBack(d)
  {
    forall x, pid | x in d.users && pid in d.users[x].appliedPosts
      ensures pid in d.posts && x in d.posts[pid].appliedTalents
    {
      assert pid in db.users[x].appliedPosts;
    }
  }

  lemma SkeletonNoDup(db: Db, d: Db)
    requires UserListsNoDup(db) && SameSkeleton(db, d)
    ensures UserListsNoDup(d)
  {
    forall x | x in d.users
      ensures NoDup(d.users[x].writtenPosts) && NoDup(d.users[x].appliedPosts)
    {
      assert NoDup(db.users[x].writtenPosts);
    }
  }

  /** A user rewritten with the same identity and post lists, still passing the
      schema and keeping code and expiry together, keeps the store valid. */
  lemma UpdateUserValid(db: Db, uid: Id, u: User)
    requires Valid(db) && uid in db.users
    requires u.providerId == db.users[uid].providerId && u.kakaomail != []
    requires u.writtenPosts == db.users[uid].writtenPosts && u.appliedPosts == db.users[uid].appliedPosts
    requires u.code.Some? <==> u.expiresAt.Some?
    ensures Valid(WithUser(db, uid, u))
  {
    SkeletonValid(db, WithUser(db, uid, u));
  }

  /** The error codes the handlers answer with (`{error: CODE}`). */
  datatype ErrorCode =
    | MissingAuthorizationHeader | InvalidAuthorizationFormat | InvalidAccessToken
    | InvalidRequest | InvalidEmail | EmailSendFailed
    | NoVerificationPending | CodeExpired | InvalidCode
    | NoRefreshToken | InvalidRefreshToken
    | MissingRequiredFields | InvalidDateFormat
    | InvalidPostId | AlreadyApplied | InvalidUserId | InvalidRole

  /** What a handler sends: a success status with a body, an error status with a
      code, nothing at all (the handler returned without responding), or nothing
      because an exception escaped the handler. */
  datatype Reply<+T> = Ok(status: nat, body: T) | Err(status: nat, error: ErrorCode) | NoReply | Uncaught

  /** A handler's effect on the store together with its reply. */
  datatype Step<+T> = Step(db: Db, reply: Reply<T>)

  /** The MongoDB database the controllers share. */
  class Store {
    var users: map<Id, User>
    var userOrder: seq<Id>
    var posts: map<Id, Post>
    var postOrder: seq<Id>
    var nextId: Id

    function State(): Db
      reads this
    {
      Db(users, userOrder, posts, postOrder, nextId)
    }

    constructor ()
      ensures State() == EmptyDb
    {
      users, userOrder, posts, postOrder, nextId := map[], [], map[], [], 1;
    }

    /** `findOne({providerId})`: scan the collection in natural order and stop at
        the first user with that identity. */
    method FindUser(pid: string) returns (r: Option<Id>)
      ensures r == FindByProvider(State(), pid)
      ensures r.Some? ==> r.value in users && users[r.value].providerId == pid
    {
      var i := 0;
      while i < |userOrder|
        invariant 0 <= i <= |userOrder|
        invariant FirstWithProvider(userOrder[i..], users, pid) == FirstWithProvider(userOrder, users, pid)
      {
        var id := userOrder[i];
        if id in users && users[id].providerId == pid {
          return Some(id);
        }
        assert userOrder[i..][1..] == userOrder[i + 1..];
        i := i + 1;
      }
      return None;
    }
  }
}
