/** The post handlers (BE/server/src/controllers/postController.js): creating a
    teaching post, applying to it, matching an applicant, and the summary list
    of all posts. */
module Posts {
  import opened Common
  import opened Tokens
  import opened Records
  import opened Guard

  /** The fields `newpost` destructures from the body; a missing field is `""`. */
  datatype NewPostBody = NewPostBody(title: string, subtitle: string, category: string,
                                     description: string, address: string, teachAt: string)

  /** One element of `matchpost`'s body: an object with a `userId` (which may or
      may not cast to an ObjectId), or `null`, whose destructuring throws. */
  datatype MatchEntry = UserRef(userId: RawId) | NullEntry

  /** The body of `matchpost`: an array of entries, or a value `for … of`
      cannot iterate. */
  datatype MatchBody = Entries(entries: seq<MatchEntry>) | NotIterable

  /** One element of the `allposts` answer. */
  datatype Summary = Summary(postId: Id, writerId: Id, category: string, title: string, subtitle: string,
                             appliedTalents: nat, address: string, status: Option<string>,
                             createdAt: int, teachAt: int)

  predicate FieldsPresent(b: NewPostBody) {
    b.title != [] && b.subtitle != [] && b.category != [] && b.description != [] &&
    b.address != [] && b.teachAt != []
  }

  /** The post `newpost` saves for writer `uid`. */
  function NewPostRecord(uid: Id, b: NewPostBody, teachAt: int, nowMs: nat): Post {
    Post(uid, [], [], b.category, b.title, b.subtitle, b.description, b.address, Some(""), nowMs, teachAt)
  }

  /** The store after post `post` was saved under the next ObjectId and appended
      to its writer's `writtenPosts`. */
  function AddPost(db: Db, uid: Id, post: Post): Db
    requires uid in db.users
  {
    var u := db.users[uid];
    Db(db.users[uid := u.(writtenPosts := u.writtenPosts + [db.nextId])], db.userOrder,
       db.posts[db.nextId := post], db.postOrder + [db.nextId], db.nextId + 1)
  }

  /** The store after user `uid` applied to post `pid`. */
  function AddApplicant(db: Db, uid: Id, pid: Id): Db
    requires uid in db.users && pid in db.posts
  {
    var u, p := db.users[uid], db.posts[pid];
    db.(users := db.users[uid := u.(appliedPosts := u.appliedPosts + [pid])],
        posts := db.posts[pid := p.(appliedTalents := p.appliedTalents + [uid])])
  }

  /** The store after user `x` was matched on post `pid`. */
  function AddMatch(db: Db, pid: Id, x: Id): Db
    requires pid in db.posts
  {
    var p := db.posts[pid];
    db.(posts := db.posts[pid := p.(matchedTalents := p.matchedTalents + [x])])
  }

  /** `newpost`: guard, required fields, date check, then save the post and
      append it to the writer's `writtenPosts`. `parseDate` stands for
      `new Date(teachAt)`, None when `getTime()` is NaN. */
  function NewPostStep(db: Db, header: Option<string>, body: NewPostBody, decode: string -> Option<Token>,
                       parseDate: string -> Option<int>, nowMs: nat): (r: Step<Id>)
    ensures !r.reply.Ok? ==> r.db == db && r.reply.Err?
    ensures r.reply.Ok? ==> r.reply == Ok(201, db.nextId) && r.db.nextId == db.nextId + 1
    ensures r.db.userOrder == db.userOrder && r.db.users.Keys == db.users.Keys
  {
    match Authenticate(db, header, decode, nowMs)
    case Reject(s, e) => Step(db, Err(s, e))
    case Accept(uid) =>
      if !FieldsPresent(body) then Step(db, Err(400, MissingRequiredFields))
      else
        match parseDate(body.teachAt)
        case None => Step(db, Err(400, InvalidDateFormat))
        case Some(t) => Step(AddPost(db, uid, NewPostRecord(uid, body, t, nowMs)), Ok(201, db.nextId))
  }

  /** `applypost`. An id that does not cast makes `findById` throw, which the
      `catch` answers with 401 INVALID_ACCESS_TOKEN. */
  function ApplyPostStep(db: Db, header: Option<string>, postId: RawId, decode: string -> Option<Token>,
                         nowMs: nat): (r: Step<()>)
    ensures !r.reply.Ok? ==> r.db == db && r.reply.Err?
    ensures r.db.users.Keys == db.users.Keys && r.db.posts.Keys == db.posts.Keys
    ensures r.db.userOrder == db.userOrder && r.db.postOrder == db.postOrder && r.db.nextId == db.nextId
  {
    match Authenticate(db, header, decode, nowMs)
    case Reject(s, e) => Step(db, Err(s, e))
    case Accept(uid) =>
      match postId
      case NotAnId => Step(db, Err(401, InvalidAccessToken))
      case Oid(pid) =>
        if pid !in db.posts then Step(db, Err(400, InvalidPostId))
        else if uid in db.posts[pid].appliedTalents then Step(db, Err(400, AlreadyApplied))
        else Step(AddApplicant(db, uid, pid), Ok(200, ()))
  }

  /** `matchpost`. The loop body returns in both branches, so only the first
      entry is ever looked at, and an empty array leaves the handler without a
      response. Nobody checks that the caller wrote the post. */
  function MatchPostStep(db: Db, header: Option<string>, postId: RawId, body: MatchBody,
                         decode: string -> Option<Token>, nowMs: nat): (r: Step<()>)
    ensures !r.reply.Ok? ==> r.db == db
    ensures r.db.users == db.users && r.db.posts.Keys == db.posts.Keys
    ensures r.db.userOrder == db.userOrder && r.db.postOrder == db.postOrder && r.db.nextId == db.nextId
  {
    match Authenticate(db, header, decode, nowMs)
    case Reject(s, e) => Step(db, Err(s, e))
    case Accept(_) =>
      match postId
      case NotAnId => Step(db, Err(401, InvalidAccessToken))
      case Oid(pid) =>
        if pid !in db.posts then Step(db, Err(400, InvalidPostId))
        else
          match body
          case NotIterable => Step(db, Err(401, InvalidAccessToken))
          case Entries(es) =>
            if |es| == 0 then Step(db, NoReply)
            else
              match es[0]
              case NullEntry => Step(db, Err(401, InvalidAccessToken))
              case UserRef(NotAnId) => Step(db, Err(400, InvalidUserId))
              case UserRef(Oid(x)) =>
                var p := db.posts[pid];
                if x in p.appliedTalents && x !in p.matchedTalents then Step(AddMatch(db, pid, x), Ok(200, ()))
                else Step(db, Err(400, InvalidUserId))
  }

  function SummaryOf(pid: Id, p: Post): Summary {
    Summary(pid, p.writer, p.category, p.title, p.subtitle, |p.appliedTalents|, p.address, p.status,
            p.createdAt, p.teachAt)
  }

  // ---------------------------------------------------------------------------
  // newpost

  /** A rejected `newpost` creates nothing. A created post gets a fresh id (no
      user and no post had it), has the caller as writer, no applicants or
      matches, status `""` and creation time `now`, and goes to the end of the
      caller's `writtenPosts` and of the collection. */
  lemma NewPostOutcome(db: Db, header: Option<string>, body: NewPostBody, decode: string -> Option<Token>,
                       parseDate: string -> Option<int>, nowMs: nat)
    requires Valid(db)
    ensures var r := NewPostStep(db, header, body, decode, parseDate, nowMs);
      && (!r.reply.Ok? ==> r.db == db)
      && (r.reply.Ok? ==>
            var uid := Authenticate(db, header, decode, nowMs).value;
            var pid := r.reply.body;
            && r.reply.status == 201
            && pid !in db.posts && pid !in db.users
            && FieldsPresent(body) && parseDate(body.teachAt).Some?
            && r.db == Db(db.users[uid := db.users[uid].(writtenPosts := db.users[uid].writtenPosts + [pid])],
                          db.userOrder,
                          db.posts[pid := Post(uid, [], [], body.category, body.title, body.subtitle,
                                               body.description, body.address, Some(""), nowMs,
                                               parseDate(body.teachAt).value)],
                          db.postOrder + [pid], pid + 1))
  {
  }

  lemma NewPostKeepsValid(db: Db, header: Option<string>, body: NewPostBody, decode: string -> Option<Token>,
                          parseDate: string -> Option<int>, nowMs: nat)
    requires Valid(db)
    ensures Valid(NewPostStep(db, header, body, decode, parseDate, nowMs).db)
  {
    var r := NewPostStep(db, header, body, decode, parseDate, nowMs);
    if r.reply.Ok? {
      var uid := Authenticate(db, header, decode, nowMs).value;
      AddPostValid(db, uid, NewPostRecord(uid, body, parseDate(body.teachAt).value, nowMs));
    }
  }

  lemma AddPostValid(db: Db, uid: Id, post: Post)
    requires Valid(db) && uid in db.users && post.writer == uid
    requires PostSchemaOk(post) && post.appliedTalents == [] && post.matchedTalents == []
    ensures Valid(AddPost(db, uid, post))
  {
    var pid := db.nextId;
    assert pid !in db.posts && pid !in db.users;
    assert pid !in db.users[uid].writtenPosts;
    AddPostOrders(db, uid, post);
    AddPostUsers(db, uid, post);
    AddPostWriters(db, uid, post);
    AddPostBackLinks(db, uid, post);
  }

  lemma AddPostOrders(db: Db, uid: Id, post: Post)
    requires OrderOf(db.userOrder, db.users.Keys) && OrderOf(db.postOrder, db.posts.Keys) && IdsFresh(db)
    requires uid in db.users
    ensures var d := AddPost(db, uid, post);
      OrderOf(d.userOrder, d.users.Keys) && OrderOf(d.postOrder, d.posts.Keys) && IdsFresh(d)
  {
    assert db.nextId !in db.postOrder;
    NoDupAppend(db.postOrder, db.nextId);
  }

  lemma AddPostUsers(db: Db, uid: Id, post: Post)
    requires UniqueProviders(db.users) && PendingTogether(db.users)
    requires forall id :: id in db.users ==> UserSchemaOk(db.users[id])
    requires forall q :: q in db.posts ==> PostSchemaOk(db.posts[q]) && PostShape(db.posts[q])
    requires PostSchemaOk(post) && post.appliedTalents == [] && post.matchedTalents == []
    requires uid in db.users
    requires UserListsNoDup(db) && db.nextId !in db.users[uid].writtenPosts
    ensures var d := AddPost(db, uid, post);
      && UniqueProviders(d.users) && PendingTogether(d.users)
      && (forall id :: id in d.users ==> UserSchemaOk(d.users[id]))
      && (forall q :: q in d.posts ==> PostSchemaOk(d.posts[q]) && PostShape(d.posts[q]))
      && UserListsNoDup(d)
  {
    var d := AddPost(db, uid, post);
    NoDupAppend(db.users[uid].writtenPosts, db.nextId);
    forall a, b | a in d.users && b in d.users && a != b
      ensures d.users[a].providerId != d.users[b].providerId
    {
      assert db.users[a].providerId != db.users[b].providerId;
    }
  }

  lemma AddPostWriters(db: Db, uid: Id, post: Post)
    requires WritersKnow(db) && ApplicantsKnow(db)
    requires uid in db.users && post.writer == uid && post.appliedTalents == [] && db.nextId !in db.posts
    ensures WritersKnow(AddPost(db, uid, post)) && ApplicantsKnow(AddPost(db, uid, post))
  {
    var d := AddPost(db, uid, post);
    forall q | q in d.posts
      ensures d.posts[q].writer in d.users && q in d.users[d.posts[q].writer].writtenPosts
    {
      if q != db.nextId {
        assert q in db.users[db.posts[q].writer].writtenPosts;
      }
    }
    forall q, x | q in d.posts && x in d.posts[q].appliedTalents
      ensures x in d.users && q in d.users[x].appliedPosts
    {
      assert q in db.users[x].appliedPosts;
    }
  }

  lemma AddPostBackLinks(db: Db, uid: Id, post: Post)
    requires WrittenBack(db) && AppliedBack(db)
    requires uid in db.users && post.writer == uid && db.nextId !in db.posts
    ensures WrittenBack(AddPost(db, uid, post)) && AppliedBack(AddPost(db, uid, post))
  {
    var d := AddPost(db, uid, post);
    forall x, q | x in d.users && q in d.users[x].writtenPosts
      ensures q in d.posts && d.posts[q].writer == x
    {
      if q != db.nextId {
        assert q in db.users[x].writtenPosts;
      }
    }
    forall x, q | x in d.users && q in d.users[x].appliedPosts
      ensures q in d.posts && x in d.posts[q].appliedTalents
    {
      assert q in db.users[x].appliedPosts;
    }
  }

  // ---------------------------------------------------------------------------
  // applypost

  /** A rejected `applypost` changes nothing; an accepted one appends the caller
      once to the post's applicants and the post to the caller's applied
      posts, and touches nothing else. */
  lemma ApplyPostOutcome(db: Db, header: Option<string>, postId: RawId, decode: string -> Option<Token>, nowMs: nat)
    ensures var r := ApplyPostStep(db, header, postId, decode, nowMs);
      && (!r.reply.Ok? ==> r.db == db)
      && (postId.NotAnId? && Authenticate(db, header, decode, nowMs).Accept? ==> r.reply == Err(401, InvalidAccessToken))
      && (r.reply.Ok? ==>
            var uid := Authenticate(db, header, decode, nowMs).value;
            && postId.Oid? && postId.id in db.posts
            && uid !in db.posts[postId.id].appliedTalents
            && r.db == db.(users := db.users[uid := db.users[uid].(appliedPosts := db.users[uid].appliedPosts + [postId.id])],
                           posts := db.posts[postId.id := db.posts[postId.id].(
                                      appliedTalents := db.posts[postId.id].appliedTalents + [uid])]))
  {
  }

  /** Applying twice: the second request gets ALREADY_APPLIED and changes nothing. */
  lemma ApplyTwice(db: Db, header: Option<string>, pid: Id, decode: string -> Option<Token>, t1: nat, t2: nat)
    requires Valid(db)
    requires ApplyPostStep(db, header, Oid(pid), decode, t1).reply.Ok?
    requires Authenticate(db, header, decode, t2) == Authenticate(db, header, decode, t1)
    ensures var d := ApplyPostStep(db, header, Oid(pid), decode, t1).db;
      ApplyPostStep(d, header, Oid(pid), decode, t2) == Step(d, Err(400, AlreadyApplied))
  {
    var uid := Authenticate(db, header, decode, t1).value;
    var d := AddApplicant(db, uid, pid);
    AuthenticateUnderUserEdit(db, d, header, decode, t2);
  }

  /** The guard's answer only depends on the identities in the user collection. */
  lemma AuthenticateUnderUserEdit(db: Db, d: Db, header: Option<string>, decode: string -> Option<Token>, nowMs: nat)
    requires d.userOrder == db.userOrder && d.users.Keys == db.users.Keys
    requires forall x :: x in db.users ==> d.users[x].providerId == db.users[x].providerId
    ensures Authenticate(d, header, decode, nowMs) == Authenticate(db, header, decode, nowMs)
  {
    var b := BearerToken(header);
    if b.Accept? {
      var v := Verify(decode, b.value, JwtSecret2, nowMs);
      if v.Some? {
        FirstWithProviderSameIds(db.userOrder, db.users, d.users, v.value);
      }
    }
  }

  lemma {:induction false} FirstWithProviderSameIds(order: seq<Id>, a: map<Id, User>, b: map<Id, User>, pid: string)
    requires a.Keys == b.Keys && forall x :: x in a ==> a[x].providerId == b[x].providerId
    ensures FirstWithProvider(order, a, pid) == FirstWithProvider(order, b, pid)
    decreases |order|
  {
    if |order| > 0 {
      FirstWithProviderSameIds(order[1..], a, b, pid);
    }
  }

  lemma ApplyPostKeepsValid(db: Db, header: Option<string>, postId: RawId, decode: string -> Option<Token>, nowMs: nat)
    requires Valid(db)
    ensures Valid(ApplyPostStep(db, header, postId, decode, nowMs).db)
  {
    var r := ApplyPostStep(db, header, postId, decode, nowMs);
    if r.reply.Ok? {
      AddApplicantValid(db, Authenticate(db, header, decode, nowMs).value, postId.id);
    }
  }

  lemma AddApplicantValid(db: Db, uid: Id, pid: Id)
    requires Valid(db) && uid in db.users && pid in db.posts && uid !in db.posts[pid].appliedTalents
    ensures Valid(AddApplicant(db, uid, pid))
  {
    NotYetApplied(db, uid, pid);
    AddApplicantOrders(db, uid, pid);
    AddApplicantUsers(db, uid, pid);
    AddApplicantPosts(db, uid, pid);
    AddApplicantForward(db, uid, pid);
    AddApplicantBack(db, uid, pid);
  }

  lemma NotYetApplied(db: Db, uid: Id, pid: Id)
    requires AppliedBack(db) && uid in db.users && pid in db.posts && uid !in db.posts[pid].appliedTalents
    ensures pid !in db.users[uid].appliedPosts
  {
  }

  lemma AddApplicantOrders(db: Db, uid: Id, pid: Id)
    requires OrderOf(db.userOrder, db.users.Keys) && OrderOf(db.postOrder, db.posts.Keys) && IdsFresh(db)
    requires uid in db.users && pid in db.posts
    ensures var d := AddApplicant(db, uid, pid);
      OrderOf(d.userOrder, d.users.Keys) && OrderOf(d.postOrder, d.posts.Keys) && IdsFresh(d)
  {
  }

  lemma AddApplicantUsers(db: Db, uid: Id, pid: Id)
    requires UniqueProviders(db.users) && PendingTogether(db.users) && UserListsNoDup(db)
    requires forall id :: id in db.users ==> UserSchemaOk(db.users[id])
    requires uid in db.users && pid in db.posts && pid !in db.users[uid].appliedPosts
    ensures var d := AddApplicant(db, uid, pid);
      && UniqueProviders(d.users) && PendingTogether(d.users) && UserListsNoDup(d)
      && (forall id :: id in d.users ==> UserSchemaOk(d.users[id]))
  {
    var d := AddApplicant(db, uid, pid);
    NoDupAppend(db.users[uid].appliedPosts, pid);
    forall a, b | a in d.users && b in d.users && a != b
      ensures d.users[a].providerId != d.users[b].providerId
    {
      assert db.users[a].providerId != db.users[b].providerId;
    }
  }

  lemma AddApplicantPosts(db: Db, uid: Id, pid: Id)
    requires forall q :: q in db.posts ==> PostSchemaOk(db.posts[q]) && PostShape(db.posts[q])
    requires uid in db.users && pid in db.posts && uid !in db.posts[pid].appliedTalents
    ensures var d := AddApplicant(db, uid, pid);
      forall q :: q in d.posts ==> PostSchemaOk(d.posts[q]) && PostShape(d.posts[q])
  {
    NoDupAppend(db.posts[pid].appliedTalents, uid);
  }

  lemma AddApplicantForward(db: Db, uid: Id, pid: Id)
    requires WritersKnow(db) && ApplicantsKnow(db)
    requires uid in db.users && pid in db.posts
    ensures WritersKnow(AddApplicant(db, uid, pid)) && ApplicantsKnow(AddApplicant(db, uid, pid))
  {
    var d := AddApplicant(db, uid, pid);
    forall q | q in d.posts
      ensures d.posts[q].writer in d.users && q in d.users[d.posts[q].writer].writtenPosts
    {
      assert q in db.users[db.posts[q].writer].writtenPosts;
    }
    forall q, x | q in d.posts && x in d.posts[q].appliedTalents
      ensures x in d.users && q in d.users[x].appliedPosts
    {
      if !(q == pid && x == uid) {
        assert x in db.posts[q].appliedTalents;
        assert q in db.users[x].appliedPosts;
      }
    }
  }

  lemma AddApplicantBack(db: Db, uid: Id, pid: Id)
    requires WrittenBack(db) && AppliedBack(db)
    requires uid in db.users && pid in db.posts
    ensures WrittenBack(AddApplicant(db, uid, pid)) && AppliedBack(AddApplicant(db, uid, pid))
  {
    var d := AddApplicant(db, uid, pid);
    forall x, q | x in d.users && q in d.users[x].writtenPosts
      ensures q in d.posts && d.posts[q].writer == x
    {
      assert q in db.users[x].writtenPosts;
    }
    forall x, q | x in d.users && q in d.users[x].appliedPosts
      ensures q in d.posts && x in d.posts[q].appliedTalents
    {
      if !(q == pid && x == uid) {
        assert q in db.users[x].appliedPosts;
      }
    }
  }

  // ---------------------------------------------------------------------------
  // matchpost

  /** Only the first entry of the body counts: whatever follows it is never
      examined; an empty array gets no response at all. */
  lemma MatchPostFirstEntryOnly(db: Db, header: Option<string>, postId: RawId, e: MatchEntry, rest: seq<MatchEntry>,
                                decode: string -> Option<Token>, nowMs: nat)
    ensures MatchPostStep(db, header, postId, Entries([e] + rest), decode, nowMs) ==
            MatchPostStep(db, header, postId, Entries([e]), decode, nowMs)
    ensures Authenticate(db, header, decode, nowMs).Accept? && postId.Oid? && postId.id in db.posts ==>
              MatchPostStep(db, header, postId, Entries([]), decode, nowMs) == Step(db, NoReply)
  {
  }

  /** A match succeeds exactly for an applicant not matched yet, and then appends
      that user once to `matchedTalents`; every other answer changes nothing.
      Who the caller is does not matter as long as the guard admits them. */
  lemma MatchPostOutcome(db: Db, header: Option<string>, other: Option<string>, pid: Id, x: Id,
                         decode: string -> Option<Token>, nowMs: nat)
    requires Authenticate(db, header, decode, nowMs).Accept? && Authenticate(db, other, decode, nowMs).Accept?
    requires pid in db.posts
    ensures var r := MatchPostStep(db, header, Oid(pid), Entries([UserRef(Oid(x))]), decode, nowMs);
      && (r.reply.Ok? <==> x in db.posts[pid].appliedTalents && x !in db.posts[pid].matchedTalents)
      && (r.reply.Ok? ==>
            r.db == db.(posts := db.posts[pid := db.posts[pid].(matchedTalents := db.posts[pid].matchedTalents + [x])]))
      && (!r.reply.Ok? ==> r == Step(db, Err(400, InvalidUserId)))
      && r == MatchPostStep(db, other, Oid(pid), Entries([UserRef(Oid(x))]), decode, nowMs)
  {
  }

  lemma MatchPostKeepsValid(db: Db, header: Option<string>, postId: RawId, body: MatchBody,
                            decode: string -> Option<Token>, nowMs: nat)
    requires Valid(db)
    ensures Valid(MatchPostStep(db, header, postId, body, decode, nowMs).db)
  {
    var r := MatchPostStep(db, header, postId, body, decode, nowMs);
    if r.reply.Ok? {
      AddMatchValid(db, postId.id, body.entries[0].userId.id);
    }
  }

  lemma AddMatchValid(db: Db, pid: Id, x: Id)
    requires Valid(db) && pid in db.posts
    requires x in db.posts[pid].appliedTalents && x !in db.posts[pid].matchedTalents
    ensures Valid(AddMatch(db, pid, x))
  {
    AddMatchPosts(db, pid, x);
    AddMatchLinked(db, pid, x);
  }

  lemma AddMatchPosts(db: Db, pid: Id, x: Id)
    requires forall q :: q in db.posts ==> PostSchemaOk(db.posts[q]) && PostShape(db.posts[q])
    requires pid in db.posts
    requires x in db.posts[pid].appliedTalents && x !in db.posts[pid].matchedTalents
    ensures var d := AddMatch(db, pid, x);
      forall q :: q in d.posts ==> PostSchemaOk(d.posts[q]) && PostShape(d.posts[q])
  {
    var d := AddMatch(db, pid, x);
    NoDupAppend(db.posts[pid].matchedTalents, x);
    assert PostShape(d.posts[pid]);
  }

  /** Matching changes neither writers nor applicants, so the links hold. */
  lemma AddMatchLinked(db: Db, pid: Id, x: Id)
    requires Linked(db) && pid in db.posts
    ensures Linked(AddMatch(db, pid, x))
  {
    var d := AddMatch(db, pid, x);
    assert SamePostLinks(db, d);
    SamePostLinksForward(db, d);
    SamePostLinksBack(db, d);
  }

  /** `d` differs from `db` at most in post fields other than writer and applicants. */
  ghost predicate SamePostLinks(db: Db, d: Db) {
    && d.users == db.users && d.posts.Keys == db.posts.Keys
    && forall q :: q in db.posts ==>
         d.posts[q].writer == db.posts[q].writer && d.posts[q].appliedTalents == db.posts[q].appliedTalents
  }

  lemma SamePostLinksForward(db: Db, d: Db)
    requires WritersKnow(db) && ApplicantsKnow(db) && SamePostLinks(db, d)
    ensures WritersKnow(d) && ApplicantsKnow(d)
  {
    forall q | q in d.posts
      ensures d.posts[q].writer in d.users && q in d.users[d.posts[q].writer].writtenPosts
    {
      assert d.posts[q].writer == db.posts[q].writer;
    }
    forall q, y | q in d.posts && y in d.posts[q].appliedTalents
      ensures y in d.users && q in d.users[y].appliedPosts
    {
      assert y in db.posts[q].appliedTalents;
    }
  }

  lemma SamePostLinksBack(db: Db, d: Db)
    requires WrittenBack(db) && AppliedBack(db) && UserListsNoDup(db) && SamePostLinks(db, d)
    ensures WrittenBack(d) && AppliedBack(d) && UserListsNoDup(d)
  {
    forall y, q | y in d.users && q in d.users[y].writtenPosts
      ensures q in d.posts && d.posts[q].writer == y
    {
      assert q in db.posts;
    }
    forall y, q | y in d.users && q in d.users[y].appliedPosts
      ensures q in d.posts && y in d.posts[q].appliedTalents
    {
      assert q in db.posts;
    }
  }

  // ---------------------------------------------------------------------------
  // The handlers on the shared store

  method NewPost(st: Store, header: Option<string>, body: NewPostBody, decode: string -> Option<Token>,
                 parseDate: string -> Option<int>, nowMs: nat) returns (r: Reply<Id>)
    modifies st
    ensures Step(st.State(), r) == NewPostStep(old(st.State()), header, body, decode, parseDate, nowMs)
  {
    var auth := Authenticate(st.State(), header, decode, nowMs);
    if auth.Reject? {
      return Err(auth.status, auth.error);
    }
    if !FieldsPresent(body) {
      return Err(400, MissingRequiredFields);
    }
    var teachAt := parseDate(body.teachAt);
    if teachAt.None? {
      return Err(400, InvalidDateFormat);
    }
    var uid, pid := auth.value, st.nextId;
    st.posts := st.posts[pid := NewPostRecord(uid, body, teachAt.value, nowMs)];
    st.postOrder := st.postOrder + [pid];
    st.nextId := st.nextId + 1;
    var u := st.users[uid];
    st.users := st.users[uid := u.(writtenPosts := u.writtenPosts + [pid])];
    r := Ok(201, pid);
  }

  method ApplyPost(st: Store, header: Option<string>, postId: RawId, decode: string -> Option<Token>,
                   nowMs: nat) returns (r: Reply<()>)
    modifies st
    ensures Step(st.State(), r) == ApplyPostStep(old(st.State()), header, postId, decode, nowMs)
  {
    var auth := Authenticate(st.State(), header, decode, nowMs);
    if auth.Reject? {
      return Err(auth.status, auth.error);
    }
    if postId.NotAnId? {
      return Err(401, InvalidAccessToken);
    }
    var uid, pid := auth.value, postId.id;
    if pid !in st.posts {
      return Err(400, InvalidPostId);
    }
    var p := st.posts[pid];
    if uid in p.appliedTalents {
      return Err(400, AlreadyApplied);
    }
    st.posts := st.posts[pid := p.(appliedTalents := p.appliedTalents + [uid])];
    var u := st.users[uid];
    st.users := st.users[uid := u.(appliedPosts := u.appliedPosts + [pid])];
    r := Ok(200, ());
  }

  method MatchPost(st: Store, header: Option<string>, postId: RawId, body: MatchBody,
                   decode: string -> Option<Token>, nowMs: nat) returns (r: Reply<()>)
    modifies st
    ensures Step(st.State(), r) == MatchPostStep(old(st.State()), header, postId, body, decode, nowMs)
  {
    var auth := Authenticate(st.State(), header, decode, nowMs);
    if auth.Reject? {
      return Err(auth.status, auth.error);
    }
    if postId.NotAnId? {
      return Err(401, InvalidAccessToken);
    }
    var pid := postId.id;
    if pid !in st.posts {
      return Err(400, InvalidPostId);
    }
    if body.NotIterable? {
      return Err(401, InvalidAccessToken);
    }
    // The body of `for (const {userId} of users)` returns on every path, so
    // the loop never gets past its first element.
    if |body.entries| == 0 {
      return NoReply;
    }
    var e := body.entries[0];
    if e.NullEntry? {
      return Err(401, InvalidAccessToken);
    }
    var p := st.posts[pid];
    if e.userId.Oid? && e.userId.id in p.appliedTalents && e.userId.id !in p.matchedTalents {
      st.posts := st.posts[pid := p.(matchedTalents := p.matchedTalents + [e.userId.id])];
    } else {
      return Err(400, InvalidUserId);
    }
    r := Ok(200, ());
  }

  /** `allposts`: one summary per stored post, in the collection's natural order.
      In a consistent store that lists every post exactly once. */
  method AllPosts(st: Store) returns (r: seq<Summary>)
    requires forall id :: id in st.postOrder ==> id in st.posts
    ensures |r| == |st.postOrder|
    ensures forall k :: 0 <= k < |r| ==> r[k] == SummaryOf(st.postOrder[k], st.posts[st.postOrder[k]])
    ensures Valid(st.State()) ==>
              (forall id :: id in st.posts <==> exists k :: 0 <= k < |r| && r[k].postId == id) &&
              (forall j, k :: 0 <= j < k < |r| ==> r[j].postId != r[k].postId)
  {
    r := [];
    var i := 0;
    while i < |st.postOrder|
      invariant 0 <= i <= |st.postOrder| && |r| == i
      invariant forall k :: 0 <= k < i ==> r[k] == SummaryOf(st.postOrder[k], st.posts[st.postOrder[k]])
    {
      var id := st.postOrder[i];
      r := r + [SummaryOf(id, st.posts[id])];
      i := i + 1;
    }
    if Valid(st.State()) {
      forall id | id in st.posts ensures exists k :: 0 <= k < |r| && r[k].postId == id {
        var k :| 0 <= k < |st.postOrder| && st.postOrder[k] == id;
        assert r[k].postId == id;
      }
    }
  }
}
