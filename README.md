# A verified model of a talent-matching service and two small helper projects

This project models, in Dafny, the core of three repositories.

- **2025-growthon-Team2, the backend.** An Express/MongoDB server through which
  "givers" (students who verified a school e-mail) post lessons and "learners"
  apply to them. It covers:
  - the Kakao login that finds or creates the user and sets a refresh cookie;
  - the bearer-token guard every protected handler repeats;
  - school e-mail verification with a four-digit code that expires after five minutes;
  - refreshing an access token;
  - storing a role;
  - creating, applying to, matching and listing posts;
  - the read-only user views;
  - push subscriptions.

  The MongoDB collections are maps with an insertion order. Each handler is a
  pure step function from the store and the request to the new store and the
  reply. A `Records.Store` class holds the shared state, and the handler methods
  are proved equal to the step functions. Lemmas prove that every handler keeps
  the store consistent:
  - ids are fresh;
  - there is one user per Kakao identity;
  - a pending code and its expiry are set together;
  - a post is listed by its writer and by its applicants, and the other way round;
  - the lists hold no duplicates;
  - only applicants are matched.

  The lemmas also give each handler's exact error cases.
- **2025-growthon-Team2, the front-end helpers.** These are:
  - the two input checks;
  - the cookie helpers;
  - `convertObjToMap`;
  - the error-message chooser;
  - the header's back button, logo, page name and height;
  - the route guard's decision;
  - the lesson-registration toggle and submit;
  - the home-page filter;
  - the onboarding state machine of `RoleSelection`, a class whose fields the callbacks assign.
- **GooU_test_Team-2, the in-memory user registry.** This is the Java
  `UserController`: an `ArrayList` and an id counter. It is a class whose
  methods are proved against value-level `Add`/`Get`/`Update`/`Delete`
  functions. Lemmas prove:
  - ids stay strictly increasing and are never reused;
  - the outcome of each operation.
- **Vibe-HandTune_withLLM, the text-emotion helper and the MIDI message generator.**
  - The language-model reply is a parameter.
  - The lemmas prove:
    - the note table's rule and its range;
    - the behaviour of Python's `int()` on rhythm parts;
    - the rhythm lengths;
    - the note_on/note_off pairing and timing of the generated messages.

Calls into code that is not modelled become parameters:
- token decoding;
- the clock;
- random rolls;
- date parsing;
- the mail, push and Kakao results;
- the language-model reply;
- `toUTCString`;
- `toISOString`.

Where the code and the written design disagree, the model follows the code:
- **`matchpost` handles only the first entry of its body.** The loop returns in both branches.
- **A second application gets 400 `ALREADY_APPLIED`, not 409.**
- **The verification code has 4 characters.** `generateCode()` is called with its default length, whatever the "six digits" comment says.
- **A token that fails to verify in `verifyEmail` is not answered with a coded error.** The call sits outside any `try`, so the model records an uncaught exception and no reply.
- **`accesstoken` is defined twice.** The later of its two identical definitions is the one modelled.

## Model

| member | source | states |
|---|---|---|
| Records.EmptyValid | 2025-growthon-Team2/BE/server/src/models/user.js:4-16 | The empty database satisfies the store invariant (fresh ids, one user per identity, pending code with expiry, two-way post links, no duplicates, matched ⊆ applied). |
| Records.FirstWithProvider | 2025-growthon-Team2/BE/server/src/controllers/postController.js:17 | `findOne({providerId})` returns a stored user with that identity, and None only when no user in natural order has it. |
| Records.FindByProviderExact | 2025-growthon-Team2/BE/server/src/models/user.js:5 | In a consistent store the lookup succeeds exactly when some user has the identity, and then returns that (unique) user. |
| Records.FirstWithProviderUpdate | 2025-growthon-Team2/BE/server/src/controllers/authController.js:48-51 | Rewriting a user without changing its identity changes no lookup result. |
| Records.SkeletonValid | 2025-growthon-Team2/BE/server/src/models/user.js:4-16 | A store that differs only in user fields other than identity and post lists is still consistent. |
| Records.SkeletonKeepsIdentities | 2025-growthon-Team2/BE/server/src/models/user.js:5 | Such an edit keeps the order, the fresh ids and the uniqueness of Kakao identities. |
| Records.SkeletonKeepsLinks | 2025-growthon-Team2/BE/server/src/models/user.js:15-16 | Such an edit keeps every writer and applicant link in both directions. |
| Records.SkeletonWriters | 2025-growthon-Team2/BE/server/src/models/talent.js:3 | Every post's writer still exists and still lists the post. |
| Records.SkeletonApplicants | 2025-growthon-Team2/BE/server/src/models/talent.js:4 | Every applicant still exists and still lists the post. |
| Records.SkeletonWritten | 2025-growthon-Team2/BE/server/src/models/user.js:15 | Every written post still exists and still names the user as writer. |
| Records.SkeletonApplied | 2025-growthon-Team2/BE/server/src/models/user.js:16 | Every applied post still exists and still lists the user. |
| Records.SkeletonNoDup | 2025-growthon-Team2/BE/server/src/models/user.js:15-16 | The users' post lists stay free of duplicates. |
| Records.UpdateUserValid | 2025-growthon-Team2/BE/server/src/controllers/roleController.js:23-24 | Saving back a user with the same identity and post lists, still passing the schema, keeps the store consistent. |
| Records.Store.constructor | 2025-growthon-Team2/BE/server/src/models/user.js:4-16 | The database starts empty. |
| Records.Store.FindUser | 2025-growthon-Team2/BE/server/src/controllers/authController.js:44 | The scan over the collection in natural order stops at the first user with the identity: its result is the value-level `findOne`, and a found id always names a stored user with that identity. |
| Tokens.Sign | 2025-growthon-Team2/BE/server/src/kakao/login.js:67-69 | A signed claim has the secret and id given, and its `exp` in seconds is the floor of now + ttl. |
| Tokens.Verify | 2025-growthon-Team2/BE/server/src/controllers/authController.js:126 | `jwt.verify` yields the id exactly when the text decodes to a claim signed with the same secret that has not expired. |
| Tokens.SignedTokenLifetime | 2025-growthon-Team2/BE/server/src/controllers/authController.js:128-130 | A signed token verifies with its own secret exactly while `now/1000 < signedAt/1000 + ttl`, and never with the other secret. |
| Guard.BearerToken | 2025-growthon-Team2/BE/server/src/controllers/postController.js:7-14 | Every rejection of the header is a 401 with MISSING_AUTHORIZATION_HEADER or INVALID_AUTHORIZATION_FORMAT; an accepted header yields a non-empty token. |
| Guard.BearerTokenShape | 2025-growthon-Team2/BE/server/src/controllers/postController.js:7-14 | The header checks accept token t exactly for `Bearer t` or `Bearer t rest`, with t non-empty and space-free. |
| Guard.AcceptedShape | 2025-growthon-Team2/BE/server/src/controllers/postController.js:7-14 | An accepted token is non-empty, has no space, and the header is `Bearer t` or starts with `Bearer t `. |
| Guard.ShapeAccepted | 2025-growthon-Team2/BE/server/src/controllers/postController.js:7-14 | Conversely, every header of that shape is accepted with that token. |
| Guard.BearerAlone | 2025-growthon-Team2/BE/server/src/controllers/postController.js:11-14 | `Bearer t` yields t. |
| Guard.BearerThenMore | 2025-growthon-Team2/BE/server/src/controllers/postController.js:11-14 | Pieces after the second one are ignored. |
| Guard.Authenticate | 2025-growthon-Team2/BE/server/src/controllers/postController.js:7-18 | An accepted caller is always a stored user. |
| Guard.AuthenticateExact | 2025-growthon-Team2/BE/server/src/controllers/postController.js:7-18 | Every rejection is a 401 with one of the guard codes; a caller is accepted exactly when the header has the shape, the token verifies with `JWT_SECRET2`, and the user with that identity is found. |
| Guard.RefreshTokenIsNotAccess | 2025-growthon-Team2/BE/server/src/controllers/postController.js:16 | A token signed with the refresh secret is always rejected as INVALID_ACCESS_TOKEN. |
| Auth.SchoolEmailPassesClientCheck | 2025-growthon-Team2/BE/server/src/controllers/authController.js:35-37 | Every address the server's school pattern accepts also passes the client's e-mail check. |
| Auth.SendEmailStep | 2025-growthon-Team2/BE/server/src/controllers/authController.js:11-66 | `sendEmail` touches only user records, never the post collection, the orders or the id counter, and answers 200 only when the mail went out. |
| Auth.VerifyEmailStep | 2025-growthon-Team2/BE/server/src/controllers/authController.js:67-99 | `verifyEmail` changes the store only on a 200 answer, which needs a truthy code, and never adds or removes a record. |
| Auth.AccessToken | 2025-growthon-Team2/BE/server/src/controllers/authController.js:118-135 | A refresh answers 200 with a token signed with `JWT_SECRET2` that expires one hour from now, or a 401. |
| Auth.SendEmailStoresGeneratedCode | 2025-growthon-Team2/BE/server/src/controllers/authController.js:39-51 | The code an authenticated `sendEmail` stores is the one `generateCode()` draws: four characters from 1-9 that the client's four-digit check accepts. |
| Auth.SendEmailOutcome | 2025-growthon-Team2/BE/server/src/controllers/authController.js:11-66 | The header, missing-email and bad-email checks come first and change nothing; a failed guard changes nothing; an authenticated request leaves the whole store as it was except the caller's record, whose email, code and expiry (now + 300000) are overwritten, whether or not the mail went out, and answers 200 or 500. |
| Auth.AuthenticateRejectIs401 | 2025-growthon-Team2/BE/server/src/controllers/authController.js:43-55 | Every guard rejection carries status 401. |
| Auth.SendEmailKeepsValid | 2025-growthon-Team2/BE/server/src/controllers/authController.js:41-56 | `sendEmail` keeps the store consistent. |
| Auth.VerifyEmailKeepsValid | 2025-growthon-Team2/BE/server/src/controllers/authController.js:91-98 | `verifyEmail` keeps the store consistent. |
| Auth.VerifyEmailFailureChangesNothing | 2025-growthon-Team2/BE/server/src/controllers/authController.js:67-92 | Every non-200 answer of `verifyEmail` leaves the store unchanged. |
| Auth.VerifyEmailOutcome | 2025-growthon-Team2/BE/server/src/controllers/authController.js:67-99 | `verifyEmail` succeeds exactly when the header is well formed, the code truthy, the token verifies and names a stored user whose pending code equals the one sent and whose deadline has not passed; the store afterwards is the old one with only that user marked verified and its code and expiry cleared. |
| Auth.VerifyAfterSend | 2025-growthon-Team2/BE/server/src/controllers/authController.js:87-92 | After a code is issued at t0, that code verifies at t1 exactly when t1 ≤ t0 + 300000 and otherwise gets CODE_EXPIRED; any other code in time gets INVALID_CODE and changes nothing. |
| Auth.VerifyIsSingleUse | 2025-growthon-Team2/BE/server/src/controllers/authController.js:83-98 | After a successful verification the caller is marked verified and any further attempt gets NO_VERIFICATION_PENDING. |
| Auth.OnlyLatestCodeCounts | 2025-growthon-Team2/BE/server/src/controllers/authController.js:48-51 | After two requests the first code is refused with INVALID_CODE while the second is still valid. |
| Auth.AccessTokenExact | 2025-growthon-Team2/BE/server/src/controllers/authController.js:118-135 | A refresh yields a token exactly when the cookie verifies with `JWT_SECRET` and names a stored user; the token names that user under `JWT_SECRET2` for one hour; otherwise 401 NO_REFRESH_TOKEN or INVALID_REFRESH_TOKEN. |
| Auth.RefreshThenAuthenticate | 2025-growthon-Team2/BE/server/src/controllers/authController.js:126-131 | A login cookie refreshes into an access token that the guard accepts for the same user within the hour. |
| Auth.SendEmail | 2025-growthon-Team2/BE/server/src/controllers/authController.js:11-66 | The handler draws the code with `generateCode()` (default length 4) from the rolls and then has exactly the effect and reply of the step function for that code. |
| Auth.VerifyEmail | 2025-growthon-Team2/BE/server/src/controllers/authController.js:67-99 | Likewise for `verifyEmail`. |
| CodeGen.Pick | 2025-growthon-Team2/BE/server/src/utils/generateCode.js:7 | `Math.floor(roll * 9)` for a roll in [0,1) is a valid index into the alphabet. |
| CodeGen.Code | 2025-growthon-Team2/BE/server/src/utils/generateCode.js:3-9 | The code has `length` characters (none when length ≤ 0), all from "123456789", never '0'. |
| CodeGen.GenerateCode | 2025-growthon-Team2/BE/server/src/utils/generateCode.js:3-9 | The loop yields that code with the k-th character picked by the k-th roll. |
| CodeGen.DefaultCodePassesClientCheck | 2025-growthon-Team2/BE/server/src/utils/generateCode.js:3 | Every code of the default length 4 passes the client's `/^\d{4}$/` check. |
| Login.KakaoLoginStep | 2025-growthon-Team2/BE/server/src/kakao/login.js:9-89 | Login never touches posts; without a cookie (any failure) the store is unchanged and the redirect is the client's root; a cookie is always the refresh cookie for the profile's Kakao id. |
| Login.LoginOutcome | 2025-growthon-Team2/BE/server/src/kakao/login.js:9-89 | Every login ends in one of the redirects `/`, `/home` or `/role`; the 30-day refresh cookie (httpOnly, secure, sameSite None, `JWT_SECRET` claim for the Kakao id) is set exactly when the redirect is not `/`; a known identity is reused untouched and sent to `/home` if its e-mail is verified and to `/role` otherwise; an unknown one adds exactly one default user under a fresh id at the end of the collection and goes to `/role`; a failed exchange or an unsavable profile creates nothing. |
| Login.LoginKeepsValid | 2025-growthon-Team2/BE/server/src/kakao/login.js:48-64 | Login keeps the store consistent, in particular one user per Kakao identity. |
| Login.InsertValid | 2025-growthon-Team2/BE/server/src/kakao/login.js:50-63 | Inserting a new user whose identity is not yet stored keeps the store consistent. |
| Login.InsertOrders | 2025-growthon-Team2/BE/server/src/kakao/login.js:63 | The insertion keeps each order listing each key once and the ids fresh. |
| Login.InsertUsers | 2025-growthon-Team2/BE/server/src/kakao/login.js:48-63 | The insertion keeps identities unique and pending codes paired with expiries. |
| Login.InsertLinks | 2025-growthon-Team2/BE/server/src/kakao/login.js:50-63 | A user with empty post lists keeps every link. |
| Login.InsertLinksForward | 2025-growthon-Team2/BE/server/src/kakao/login.js:50-63 | Writers and applicants still know their posts. |
| Login.InsertLinksBack | 2025-growthon-Team2/BE/server/src/kakao/login.js:50-63 | Listed posts still name their users, and no list gains a duplicate. |
| Login.RepeatedLoginAddsNoUser | 2025-growthon-Team2/BE/server/src/kakao/login.js:48-49 | A second login with the same identity leaves the store as the first left it. |
| Login.KakaoLogin | 2025-growthon-Team2/BE/server/src/kakao/login.js:9-89 | The handler on the shared store has exactly the effect, cookie and redirect of the step function. |
| Role.MyRoleStep | 2025-growthon-Team2/BE/server/src/controllers/roleController.js:8-28 | `myrole` changes the store only on success, which needs a truthy role, and never adds or removes a user or touches posts. |
| Role.MyRoleOutcome | 2025-growthon-Team2/BE/server/src/controllers/roleController.js:8-28 | A rejected request changes nothing; a falsy role gets 400 INVALID_ROLE; success happens exactly for an accepted caller with a truthy role, and the store afterwards is the old one with only that caller's role replaced by the value sent. |
| Role.MyRoleKeepsValid | 2025-growthon-Team2/BE/server/src/controllers/roleController.js:21-25 | `myrole` keeps the store consistent. |
| Role.MyRole | 2025-growthon-Team2/BE/server/src/controllers/roleController.js:8-28 | The handler on the shared store matches the step function. |
| Posts.NewPostStep | 2025-growthon-Team2/BE/server/src/controllers/postController.js:6-48 | A failed `newpost` changes nothing and answers an error; a created post is answered 201 with the next id, after which the counter has moved on; users are never added. |
| Posts.NewPostOutcome | 2025-growthon-Team2/BE/server/src/controllers/postController.js:6-48 | A rejection creates nothing; on success the whole store afterwards is given: a post under a fresh id with the caller as writer, no applicants or matches, status "", creation time now and the parsed date, appended to the post order and to the caller's written posts, the id counter moved on, every other user and field unchanged. |
| Posts.NewPostKeepsValid | 2025-growthon-Team2/BE/server/src/controllers/postController.js:27-43 | `newpost` keeps the store consistent. |
| Posts.AddPostValid | 2025-growthon-Team2/BE/server/src/controllers/postController.js:27-42 | Adding a post under a fresh id for a stored writer keeps the store consistent. |
| Posts.AddPostOrders | 2025-growthon-Team2/BE/server/src/controllers/postController.js:40 | The post order gains exactly the new id and ids stay fresh. |
| Posts.AddPostUsers | 2025-growthon-Team2/BE/server/src/controllers/postController.js:41-42 | Identities stay unique and pending codes stay paired. |
| Posts.AddPostWriters | 2025-growthon-Team2/BE/server/src/controllers/postController.js:27-42 | Every writer and applicant still lists its posts. |
| Posts.AddPostBackLinks | 2025-growthon-Team2/BE/server/src/controllers/postController.js:41 | Every listed post still names its user back. |
| Posts.ApplyPostStep | 2025-growthon-Team2/BE/server/src/controllers/postController.js:49-76 | A failed `applypost` changes nothing and answers an error; no record, order or counter is ever added. |
| Posts.ApplyPostOutcome | 2025-growthon-Team2/BE/server/src/controllers/postController.js:49-76 | A rejection changes nothing; a malformed id answers 401; success appends the caller once to the post's applicants and the post to the caller's applied list, and the store afterwards differs from the old one in those two lists only. |
| Posts.ApplyTwice | 2025-growthon-Team2/BE/server/src/controllers/postController.js:64-67 | A second application by the same caller gets 400 ALREADY_APPLIED and changes nothing. |
| Posts.AuthenticateUnderUserEdit | 2025-growthon-Team2/BE/server/src/controllers/postController.js:60-61 | The guard's answer depends only on the identities in the user collection. |
| Posts.FirstWithProviderSameIds | 2025-growthon-Team2/BE/server/src/controllers/postController.js:60 | Two user maps that agree on identities give the same lookup. |
| Posts.ApplyPostKeepsValid | 2025-growthon-Team2/BE/server/src/controllers/postController.js:62-72 | `applypost` keeps the store consistent. |
| Posts.AddApplicantValid | 2025-growthon-Team2/BE/server/src/controllers/postController.js:68-71 | Adding a not-yet-applied user as applicant keeps the store consistent. |
| Posts.NotYetApplied | 2025-growthon-Team2/BE/server/src/controllers/postController.js:64-67 | In a consistent store a user not among the applicants does not list the post. |
| Posts.AddApplicantOrders | 2025-growthon-Team2/BE/server/src/controllers/postController.js:68-71 | Orders and fresh ids are unchanged. |
| Posts.AddApplicantUsers | 2025-growthon-Team2/BE/server/src/controllers/postController.js:70-71 | Identities and pending codes are unchanged. |
| Posts.AddApplicantPosts | 2025-growthon-Team2/BE/server/src/controllers/postController.js:68-69 | The post keeps no duplicate applicants and matched ⊆ applied. |
| Posts.AddApplicantForward | 2025-growthon-Team2/BE/server/src/controllers/postController.js:68-71 | Writers and applicants still know their posts. |
| Posts.AddApplicantBack | 2025-growthon-Team2/BE/server/src/controllers/postController.js:68-71 | Listed posts still name their users; user lists stay duplicate-free. |
| Posts.MatchPostStep | 2025-growthon-Team2/BE/server/src/controllers/postController.js:77-108 | `matchpost` never changes a user, an order, the counter or the set of posts, and changes nothing unless it answers 200. |
| Posts.MatchPostFirstEntryOnly | 2025-growthon-Team2/BE/server/src/controllers/postController.js:92-104 | Entries after the first never matter, and an empty body gets no response. |
| Posts.MatchPostOutcome | 2025-growthon-Team2/BE/server/src/controllers/postController.js:77-108 | A match succeeds exactly for an applicant not yet matched, and the store afterwards is the old one with only that user appended once to the post's matched list; every other answer is 400 INVALID_USERID with no change; which admitted caller asks does not matter. |
| Posts.MatchPostKeepsValid | 2025-growthon-Team2/BE/server/src/controllers/postController.js:88-104 | `matchpost` keeps the store consistent. |
| Posts.AddMatchValid | 2025-growthon-Team2/BE/server/src/controllers/postController.js:95-98 | Matching an unmatched applicant keeps the store consistent. |
| Posts.AddMatchPosts | 2025-growthon-Team2/BE/server/src/controllers/postController.js:95-98 | Matched users stay a duplicate-free subset of applicants. |
| Posts.AddMatchLinked | 2025-growthon-Team2/BE/server/src/controllers/postController.js:95-98 | Matching changes no writer or applicant, so every link holds. |
| Posts.SamePostLinksForward | 2025-growthon-Team2/BE/server/src/controllers/postController.js:95-98 | A store that differs only in post fields other than writer and applicants keeps the forward links. |
| Posts.SamePostLinksBack | 2025-growthon-Team2/BE/server/src/controllers/postController.js:95-98 | The same edit keeps the back links and duplicate-free lists. |
| Posts.NewPost | 2025-growthon-Team2/BE/server/src/controllers/postController.js:6-48 | The handler on the shared store matches the step function. |
| Posts.ApplyPost | 2025-growthon-Team2/BE/server/src/controllers/postController.js:49-76 | The handler on the shared store matches the step function. |
| Posts.MatchPost | 2025-growthon-Team2/BE/server/src/controllers/postController.js:77-108 | The handler on the shared store matches the step function; as the loop body returns on every path, it inspects only the first entry of the body. |
| Posts.AllPosts | 2025-growthon-Team2/BE/server/src/controllers/postController.js:155-172 | One summary per stored post in natural order, with the applicant count; in a consistent store every post appears exactly once. |
| UserViews.ShownRole | 2025-growthon-Team2/BE/server/src/controllers/userController.js:21-24 | `role \|\| ""` is empty exactly for a null or empty role and otherwise the role. |
| UserViews.Subscribed | 2025-growthon-Team2/BE/server/src/controllers/userController.js:31 | `subscription != null` is false only for a null or absent value. |
| UserViews.MyInfo | 2025-growthon-Team2/BE/server/src/controllers/userController.js:8-36 | The profile is answered with 200 exactly for an accepted caller; otherwise 401. |
| UserViews.NewUserReportsSubscribed | 2025-growthon-Team2/BE/server/src/kakao/login.js:60 | A user just created by login reports `subscription: true` and role "". |
| UserViews.UserData | 2025-growthon-Team2/BE/server/src/controllers/userController.js:37-51 | The public card is answered exactly for a stored user id; anything else is 400 INVALID_USERID. |
| UserViews.UserDataRejectsPostIds | 2025-growthon-Team2/BE/server/src/controllers/userController.js:40-41 | In a consistent store a post id is never accepted as a user id. |
| UserViews.ValidResolves | 2025-growthon-Team2/BE/server/src/controllers/userController.js:67-97 | In a consistent store every post a user lists, and each applied post's writer, can be found. |
| UserViews.MyPosts | 2025-growthon-Team2/BE/server/src/controllers/userController.js:52-101 | The two loops answer 200 exactly for a caller whose lists resolve, with one entry per listed post in list order; otherwise 401. |
| Noti.SubscriptionStep | 2025-growthon-Team2/BE/server/src/controllers/notiController.js:8-29 | A failed `subscription` is a 401 that changes nothing; no record is ever added or removed. |
| Noti.SendPush | 2025-growthon-Team2/BE/server/src/controllers/notiController.js:30-52 | A push goes out exactly when the reply is 200, titled 알림 and carrying the text. |
| Noti.SubscriptionOutcome | 2025-growthon-Team2/BE/server/src/controllers/notiController.js:8-29 | Success exactly for an accepted caller, and the store afterwards is the old one with only that caller's subscription replaced by the given value; otherwise a 401 with no change. |
| Noti.SubscriptionKeepsValid | 2025-growthon-Team2/BE/server/src/controllers/notiController.js:22-24 | `subscription` keeps the store consistent. |
| Noti.SendPushOutcome | 2025-growthon-Team2/BE/server/src/controllers/notiController.js:30-52 | A push goes out exactly when the reply is 200, to the caller's stored subscription with title 알림 and the text; otherwise 401. |
| Noti.SubscribeThenPush | 2025-growthon-Team2/BE/server/src/controllers/notiController.js:44-47 | After subscribing, the caller's next push goes to that subscription. |
| Noti.Subscribe | 2025-growthon-Team2/BE/server/src/controllers/notiController.js:8-29 | The handler on the shared store matches the step function. |
| Validate.ValidateEmailShape | 2025-growthon-Team2/FE/src/utils/validate.js:1-4 | The e-mail pattern accepts exactly whitespace-free strings with one `@`, a non-empty local part and a domain holding a `.` with text on both sides. |
| Validate.NoTrim | 2025-growthon-Team2/FE/src/utils/validate.js:6-9 | A leading or trailing space makes both checks fail. |
| Common.IndexFrom | 2025-growthon-Team2/FE/src/components/Header.jsx:19 | The result is the first occurrence at or after i, or -1 when there is none. |
| Common.IncludesIff | 2025-growthon-Team2/FE/src/components/Header.jsx:19 | `includes` holds exactly when the substring occurs somewhere. |
| Common.IncludesWhole | 2025-growthon-Team2/FE/src/pages/Home.jsx:76-79 | Every string includes itself and the empty string. |
| Common.Split | 2025-growthon-Team2/FE/src/utils/cookies.js:31-32 | The pieces join back to the string and none contains the separator. |
| Common.SplitJoin | 2025-growthon-Team2/FE/src/utils/cookies.js:20-26 | Splitting a join of separator-free parts gives the parts back. |
| Common.Lower | 2025-growthon-Team2/FE/src/pages/Home.jsx:75 | Lower-casing works character by character and keeps the length. |
| Cookies.PairOfKeyValue | 2025-growthon-Team2/FE/src/utils/cookies.js:32 | `k=v` reads as the pair (k, v). |
| Cookies.PairOfRoundTrip | 2025-growthon-Team2/FE/src/utils/cookies.js:32 | With a second `=`, only the text between the first and second `=` is the value. |
| Cookies.PairWithoutValue | 2025-growthon-Team2/FE/src/utils/cookies.js:32-33 | A piece without `=` reads as the value "undefined". |
| Cookies.JarHasKey | 2025-growthon-Team2/FE/src/utils/cookies.js:31-35 | A name is in the accumulator exactly when some pair has it. |
| Cookies.JarLastPairWins | 2025-growthon-Team2/FE/src/utils/cookies.js:33-34 | The stored value is that of the last pair with the name. |
| Cookies.GetCookie | 2025-growthon-Team2/FE/src/utils/cookies.js:30-37 | The reduce loop yields the lookup of the jar of the pairs. |
| Cookies.GetCookieMeaning | 2025-growthon-Team2/FE/src/utils/cookies.js:30-37 | `getCookie` gives the last pair's value unless it is empty, and null when no pair has the name. |
| Cookies.PairsOfJoin | 2025-growthon-Team2/FE/src/utils/cookies.js:31 | Pieces without `;` joined by `; ` read back as their own pairs. |
| Cookies.GetCookieLastSet | 2025-growthon-Team2/FE/src/utils/cookies.js:31-36 | A last piece `k=v` makes `getCookie(k)` read v, overriding earlier pairs. |
| Cookies.LastPairLookup | 2025-growthon-Team2/FE/src/utils/cookies.js:33-36 | A last pair with a non-empty value is what the lookup reads. |
| Cookies.SetCookie | 2025-growthon-Team2/FE/src/utils/cookies.js:8-27 | It throws exactly when `expires` is neither a number nor a Date. |
| Cookies.SetCookieParts | 2025-growthon-Team2/FE/src/utils/cookies.js:10-26 | The written cookie splits into its five attributes, ending `SameSite=Strict; Secure`; the first reads back as (name, value) and the expiry is now + seconds or the Date. |
| Cookies.DeleteCookieParts | 2025-growthon-Team2/FE/src/utils/cookies.js:40-44 | The deleting cookie splits into `name=`, the epoch expiry and the path (default `/`), and its empty value reads as null. |
| ObjMap.Convert | 2025-growthon-Team2/FE/src/utils/convertObjToMap.js:1-10 | A converted object has at most one entry per property. |
| ObjMap.ConvertValue | 2025-growthon-Team2/FE/src/utils/convertObjToMap.js:4-7 | A null value throws; a converted value is a nested Map exactly when it was an object. |
| ObjMap.ConvertObjToMap | 2025-growthon-Team2/FE/src/utils/convertObjToMap.js:1-10 | The loop that fills the Map yields `Convert` of the entries, or the throw. |
| ObjMap.ConvertProperty | 2025-growthon-Team2/FE/src/utils/convertObjToMap.js:4-7 | A property value is converted exactly as `ConvertValue` says. |
| ObjMap.SetEntry | 2025-growthon-Team2/FE/src/utils/convertObjToMap.js:7 | `map.set` keeps an existing key in place and appends a new one. |
| ObjMap.ConvertStep | 2025-growthon-Team2/FE/src/utils/convertObjToMap.js:3-8 | One more property either throws or is set on top of the converted prefix. |
| ObjMap.NoneStaysNoneHolds | 2025-growthon-Team2/FE/src/utils/convertObjToMap.js:3-8 | A prefix that throws makes the whole conversion throw. |
| ObjMap.ConvertSucceedsIff | 2025-growthon-Team2/FE/src/utils/convertObjToMap.js:5-6 | The conversion succeeds exactly when no property at any depth is null. |
| ObjMap.ConvertValueSucceedsIff | 2025-growthon-Team2/FE/src/utils/convertObjToMap.js:4-6 | A single value converts exactly when it holds no null. |
| ObjMap.ConvertKeys | 2025-growthon-Team2/FE/src/utils/convertObjToMap.js:3-7 | The Map has the object's keys in the same order. |
| ObjMap.ConvertAppends | 2025-growthon-Team2/FE/src/utils/convertObjToMap.js:7 | With distinct keys each property is appended at the end. |
| ObjMap.ConvertValues | 2025-growthon-Team2/FE/src/utils/convertObjToMap.js:4-7 | Each entry stores the conversion of its property's value. |
| ObjMap.ConvertEntries | 2025-growthon-Team2/FE/src/utils/convertObjToMap.js:3-7 | Property by property: same key, non-objects stored unchanged, objects (arrays included) as converted nested Maps. |
| ErrorMessage.GetMessage | 2025-growthon-Team2/FE/src/components/ErrorMessage.jsx:3-16 | The message is always one of the seven texts, and after a code request never an e-mail-stage one. |
| ErrorMessage.EmailStageMessages | 2025-growthon-Team2/FE/src/components/ErrorMessage.jsx:3-16 | Before a request, validation, wrong, failed and expired map to their four messages and to nothing else, and never to a code-stage message. |
| ErrorMessage.CodeStageMessages | 2025-growthon-Team2/FE/src/components/ErrorMessage.jsx:10-14 | After a request, validation, expired and wrong map to the code-stage messages, never to an e-mail-stage one. |
| ErrorMessage.UnknownOtherwise | 2025-growthon-Team2/FE/src/components/ErrorMessage.jsx:15 | Every other check value, including failed after a request and success, gives the unknown-error message. |
| ErrorMessage.HiddenMeansFallback | 2025-growthon-Team2/FE/src/components/ErrorMessage.jsx:24-26 | The message is hidden exactly for "success" and "", which map to the fallback. |
| HeaderBar.ExactlyOneOfBackAndLogo | 2025-growthon-Team2/FE/src/components/Header.jsx:7-11 | Exactly one of the back button and the logo is shown, the logo only on `/home`. |
| HeaderBar.PageName | 2025-growthon-Team2/FE/src/components/Header.jsx:13-28 | The loop that reassigns the name yields the last-match function. |
| HeaderBar.LastMatchEmpty | 2025-growthon-Team2/FE/src/components/Header.jsx:13-28 | The name is empty exactly when no whitelist path occurs in the pathname (the whitelist names being non-empty). |
| HeaderBar.LastMatchLast | 2025-growthon-Team2/FE/src/components/Header.jsx:13-28 | The name is that of the last entry whose path occurs in the pathname. |
| HeaderBar.PageNameMeaning | 2025-growthon-Team2/FE/src/components/Header.jsx:13-28 | For the actual whitelist: "" exactly when no path matches, else the last matching entry's name. |
| HeaderBar.Height | 2025-growthon-Team2/FE/src/components/Header.jsx:70-72 | 64px exactly when the pathname contains "edu", otherwise 40px. |
| HeaderBar.MatchingPageHeader | 2025-growthon-Team2/FE/src/components/Header.jsx:13-32 | On `/edu/matching` the header is tall, has the back button and shows 신청자 목록. |
| RouteGuard.Decide | 2025-growthon-Team2/FE/src/components/ProtectedRoute.jsx:13-71 | In-app navigation only targets `/home` or `/role`, and any outcome other than the login page needs both fetches to succeed with a truthy token. |
| RouteGuard.DecideOutcome | 2025-growthon-Team2/FE/src/components/ProtectedRoute.jsx:13-71 | Each branch in order: no token or a throw goes to the login page; a role on a role-selection path goes to `/home`; no role on `/home` or another page goes to `/role`; otherwise authenticated. |
| RouteGuard.AuthenticatedIff | 2025-growthon-Team2/FE/src/components/ProtectedRoute.jsx:51-65 | A page is let through exactly when both fetches succeed with a token and the page is a role-selection page iff the user has no role. |
| RouteGuard.NavigationTargets | 2025-growthon-Team2/FE/src/components/ProtectedRoute.jsx:25-65 | In-app navigation only goes to `/home` or `/role`, and `/home` only for a user with a role. |
| RouteGuard.Guard.constructor | 2025-growthon-Team2/FE/src/components/ProtectedRoute.jsx:10-11 | The guard starts unauthenticated and loading. |
| RouteGuard.Guard.CheckAuth | 2025-growthon-Team2/FE/src/components/ProtectedRoute.jsx:16-81 | The method's outcome is the decision; loading ends and the children render once authenticated. |
| EduRegister.CheckActivate | 2025-growthon-Team2/FE/src/pages/EduRegister.jsx:8-28 | The submit button is enabled exactly when a field is selected and none of the six inputs is empty; what that guarantees the server is `EnabledFormPassesServerCheck`. |
| EduRegister.RemoveAll | 2025-growthon-Team2/FE/src/pages/EduRegister.jsx:43-45 | Filtering removes every occurrence of the field and keeps every other element's count. |
| EduRegister.Toggle | 2025-growthon-Team2/FE/src/pages/EduRegister.jsx:41-52 | After a toggle the field is present exactly when it was absent; every other field keeps its number of occurrences. |
| EduRegister.RemoveAllNoDup | 2025-growthon-Team2/FE/src/pages/EduRegister.jsx:43-45 | Filtering keeps a duplicate-free list duplicate-free. |
| EduRegister.ToggleNoDup | 2025-growthon-Team2/FE/src/pages/EduRegister.jsx:41-52 | Toggling never introduces duplicates. |
| EduRegister.RemoveAbsent | 2025-growthon-Team2/FE/src/pages/EduRegister.jsx:43-45 | Filtering out an absent field changes nothing. |
| EduRegister.ToggleTwice | 2025-growthon-Team2/FE/src/pages/EduRegister.jsx:41-52 | Toggling an absent field twice restores the list. |
| EduRegister.RemoveAppended | 2025-growthon-Team2/FE/src/pages/EduRegister.jsx:41-52 | Removing the field just appended gives the earlier list back. |
| EduRegister.Submit | 2025-growthon-Team2/FE/src/pages/EduRegister.jsx:54-74 | Nothing is sent exactly when the start date is invalid; after a send the page goes to `/home`, alerting exactly on "failed". |
| EduRegister.SubmitBody | 2025-growthon-Team2/FE/src/pages/EduRegister.jsx:57-68 | The body carries the inputs, the selected fields joined by commas and the ISO start date; the end date has no effect. |
| EduRegister.EnabledFormPassesServerCheck | 2025-growthon-Team2/FE/src/pages/EduRegister.jsx:8-28 | A form the button enables sends a body that passes the server's required-fields check. |
| HomeFilter.Filtered | 2025-growthon-Team2/FE/src/pages/Home.jsx:72-81 | Exactly the posts that pass the three conditions are kept. |
| HomeFilter.FilteredCounts | 2025-growthon-Team2/FE/src/pages/Home.jsx:72-81 | Every kept post occurs in the result as often as in the list, and no other post occurs. |
| HomeFilter.FilteredIsSublist | 2025-growthon-Team2/FE/src/pages/Home.jsx:72 | The result is an order-preserving sub-list, picked by increasing indices. |
| HomeFilter.AddFirst | 2025-growthon-Team2/FE/src/pages/Home.jsx:72 | Keeping the first element extends a sub-list picking. |
| HomeFilter.NoFilterKeepsAll | 2025-growthon-Team2/FE/src/pages/Home.jsx:72-81 | With empty search and filters every post is kept. |
| HomeFilter.CaseRules | 2025-growthon-Team2/FE/src/pages/Home.jsx:75-79 | The title search ignores case; the address match does not. |
| Onboarding.InitialStep | 2025-growthon-Team2/FE/src/pages/RoleSelection.jsx:32-41 | On one of the three routes the step names that route; on any other path it is 0. |
| Onboarding.Mount | 2025-growthon-Team2/FE/src/pages/RoleSelection.jsx:31-48 | The mounted screen's step names the current route, the storage is the browser's, nothing is requested or checked yet, and a role shown was saved earlier. |
| Onboarding.Next | 2025-growthon-Team2/FE/src/pages/RoleSelection.jsx:50-93 | "Next" never moves the step back nor changes the chosen role, calls the API only for a giver on the e-mail page, and always pushes rather than replaces. |
| Onboarding.Prev | 2025-growthon-Team2/FE/src/pages/RoleSelection.jsx:95-105 | "Back" never moves the step forward and keeps the role, the storage and the text in the box; it targets `/` or one of the three routes. |
| Onboarding.Sync | 2025-growthon-Team2/FE/src/pages/RoleSelection.jsx:121-126 | On one of the routes the step afterwards names it; elsewhere nothing changes; only the step ever changes. |
| Onboarding.PrevOutcome | 2025-growthon-Team2/FE/src/pages/RoleSelection.jsx:95-105 | At step 0 going back leaves for `/` unchanged; otherwise the step decreases, the flags reset and the previous route replaces the current one. |
| Onboarding.NextOnLastPage | 2025-growthon-Team2/FE/src/pages/RoleSelection.jsx:52-55 | On the last page "next" only goes to `/home`. |
| Onboarding.LearnerSkipsEmail | 2025-growthon-Team2/FE/src/pages/RoleSelection.jsx:57-66 | A learner at step 0 stores the role and the verified flag and jumps to step 2. |
| Onboarding.GiverRequestsCode | 2025-growthon-Team2/FE/src/pages/RoleSelection.jsx:67-78 | A giver's first press requests a code for the typed address, never advances, and marks the request only on success. |
| Onboarding.GiverChecksCode | 2025-growthon-Team2/FE/src/pages/RoleSelection.jsx:79-92 | A later press checks the code and advances and stores the verified flag exactly on success; the box is cleared either way. |
| Onboarding.OtherwiseAdvance | 2025-growthon-Team2/FE/src/pages/RoleSelection.jsx:50-93 | Any other press moves one step forward without an API call. |
| Onboarding.SyncOutcome | 2025-growthon-Team2/FE/src/pages/RoleSelection.jsx:121-126 | After a sync on a route the step names it; elsewhere the state is kept; only the step ever changes. |
| Onboarding.RoleSelection.constructor | 2025-growthon-Team2/FE/src/pages/RoleSelection.jsx:31-41 | The mounted component's state is the initial screen. |
| Onboarding.RoleSelection.SelectTempRole | 2025-growthon-Team2/FE/src/pages/RoleSelection.jsx:43-45 | Only the chosen role changes. |
| Onboarding.RoleSelection.Type | 2025-growthon-Team2/FE/src/pages/RoleSelection.jsx:50-93 | Only the text in the box changes. |
| Onboarding.RoleSelection.MoveNext | 2025-growthon-Team2/FE/src/pages/RoleSelection.jsx:50-93 | The callback's new state and effects are those of `Next`. |
| Onboarding.RoleSelection.MovePrev | 2025-growthon-Team2/FE/src/pages/RoleSelection.jsx:95-105 | The callback's new state and navigation are those of `Prev`. |
| Onboarding.RoleSelection.SyncPath | 2025-growthon-Team2/FE/src/pages/RoleSelection.jsx:121-126 | The effect's new state is that of `Sync`. |
| Registry.InitialValid | GooU_test_Team-2/src/main/java/com/example/demo/controller/UserController.java:15-16 | The empty list with counter 1 satisfies the invariant (ids strictly increasing, between 1 and the counter). |
| Registry.FirstIndex | GooU_test_Team-2/src/main/java/com/example/demo/controller/UserController.java:37-41 | The first position with the id, or None when no user has it. |
| Registry.Without | GooU_test_Team-2/src/main/java/com/example/demo/controller/UserController.java:65-67 | `removeIf` leaves exactly the users with other ids, and nothing changes when none had it. |
| Registry.Add | GooU_test_Team-2/src/main/java/com/example/demo/controller/UserController.java:18-28 | `addUser` answers 201 or 400; a created user gets the counter as id and the counter moves on. |
| Registry.Get | GooU_test_Team-2/src/main/java/com/example/demo/controller/UserController.java:35-42 | `getUserById` answers 200 or 404; a 200 carries a stored user with that id. |
| Registry.Update | GooU_test_Team-2/src/main/java/com/example/demo/controller/UserController.java:44-62 | `updateUser` answers 200 or 404, keeps the counter and the number of users, and a 200 carries a user with that id. |
| Registry.Delete | GooU_test_Team-2/src/main/java/com/example/demo/controller/UserController.java:64-68 | `deleteUser` answers 204 or 404, keeps the counter, never lengthens the list, and leaves no user with the id. |
| Registry.AddOutcome | GooU_test_Team-2/src/main/java/com/example/demo/controller/UserController.java:18-28 | A null name or email is refused with 400 and no change; otherwise the user gets the counter as id, is appended, the counter advances and 201 is answered. |
| Registry.AddKeepsValid | GooU_test_Team-2/src/main/java/com/example/demo/controller/UserController.java:24-27 | Adding keeps ids strictly increasing below the counter. |
| Registry.UpdateKeepsValid | GooU_test_Team-2/src/main/java/com/example/demo/controller/UserController.java:44-62 | Updating keeps the invariant. |
| Registry.WithoutWithin | GooU_test_Team-2/src/main/java/com/example/demo/controller/UserController.java:65-67 | Removing users keeps the remaining ids within the bounds. |
| Registry.WithoutAbove | GooU_test_Team-2/src/main/java/com/example/demo/controller/UserController.java:65-67 | Removing users keeps a lower bound on the ids. |
| Registry.ConsIncreasing | GooU_test_Team-2/src/main/java/com/example/demo/controller/UserController.java:24-27 | A smaller id in front of an increasing list keeps it increasing. |
| Registry.WithoutIncreasing | GooU_test_Team-2/src/main/java/com/example/demo/controller/UserController.java:65-67 | Removing users keeps the ids increasing. |
| Registry.DeleteKeepsValid | GooU_test_Team-2/src/main/java/com/example/demo/controller/UserController.java:64-68 | Deleting keeps the invariant. |
| Registry.AddThenGet | GooU_test_Team-2/src/test/java/com/example/demo/UserControllerTest.java:50-58 | A user just added is found by its id with the fields sent. |
| Registry.GetOutcome | GooU_test_Team-2/src/main/java/com/example/demo/controller/UserController.java:35-42 | 404 exactly when no user has the id; otherwise the first user with it. |
| Registry.UpdateOutcome | GooU_test_Team-2/src/main/java/com/example/demo/controller/UserController.java:44-62 | Only the first matching user changes, only in the non-null fields, never in its id; with no match 404 and no change. |
| Registry.DeleteOutcome | GooU_test_Team-2/src/main/java/com/example/demo/controller/UserController.java:64-68 | 204 exactly when some user had the id; 404 changes nothing; afterwards a get of the id is 404. |
| Registry.WithoutShorter | GooU_test_Team-2/src/main/java/com/example/demo/controller/UserController.java:65-67 | Removing an id that occurs shortens the list. |
| Registry.DeletedIdStaysFree | GooU_test_Team-2/src/test/java/com/example/demo/UserControllerTest.java:128-132 | An id that was handed out and deleted never comes back through a later add. |
| Registry.CountChanges | GooU_test_Team-2/src/main/java/com/example/demo/controller/UserController.java:70-73 | The count grows by one exactly on a successful add, never changes on update, and not on a 404 delete. |
| Registry.NonPositiveIdNotFound | GooU_test_Team-2/src/main/java/com/example/demo/controller/UserController.java:35-68 | Zero and negative path ids reach the handlers and answer 404 without any change. |
| Registry.UserController.constructor | GooU_test_Team-2/src/main/java/com/example/demo/controller/UserController.java:15-16 | The controller starts as the initial table. |
| Registry.UserController.AddUser | GooU_test_Team-2/src/main/java/com/example/demo/controller/UserController.java:18-28 | The method's effect and response are `Add`'s. |
| Registry.UserController.GetAllUsers | GooU_test_Team-2/src/main/java/com/example/demo/controller/UserController.java:30-33 | 200 with the list in insertion order. |
| Registry.UserController.GetUserById | GooU_test_Team-2/src/main/java/com/example/demo/controller/UserController.java:35-42 | The response is `Get`'s. |
| Registry.UserController.UpdateUser | GooU_test_Team-2/src/main/java/com/example/demo/controller/UserController.java:44-62 | The loop with in-place setters has `Update`'s effect and response. |
| Registry.UserController.DeleteUser | GooU_test_Team-2/src/main/java/com/example/demo/controller/UserController.java:64-68 | The method's effect and response are `Delete`'s. |
| Registry.UserController.GetUserCount | GooU_test_Team-2/src/main/java/com/example/demo/controller/UserController.java:70-73 | 200 with the list size. |
| Emotion.TrimStart | Vibe-HandTune_withLLM/src/emotion_analyzer.py:78 | The result is a suffix that starts with a non-space, and everything cut off is whitespace. |
| Emotion.TrimEnd | Vibe-HandTune_withLLM/src/emotion_analyzer.py:78 | The result is a prefix that ends with a non-space, and everything cut off is whitespace. |
| Emotion.StripEmptyIff | Vibe-HandTune_withLLM/src/emotion_analyzer.py:78-81 | A text strips to nothing exactly when it is all whitespace. |
| Emotion.ValidateResponse | Vibe-HandTune_withLLM/src/emotion_analyzer.py:52-60 | The value of the first character 1-5 anywhere in the answer, or 3 when there is none; always in 1..5. |
| Emotion.FirstDigitWins | Vibe-HandTune_withLLM/src/emotion_analyzer.py:54-57 | "10" reads as 1, "7 or 4" as 4, and "none" as 3. |
| Emotion.AnalyzeEmotion | Vibe-HandTune_withLLM/src/emotion_analyzer.py:62-99 | The result is always in 1..5. |
| Emotion.AnalyzeOutcome | Vibe-HandTune_withLLM/src/emotion_analyzer.py:74-99 | A non-string or blank text gives 3 without asking the model; otherwise the model is asked about the stripped text, a failed call gives 3 and an answer is stripped and validated. |
| Emotion.GetEmotionName | Vibe-HandTune_withLLM/src/emotion_analyzer.py:101-104 | The name is always one of the five names, and 중립 for any number outside 1..5. |
| Emotion.EmotionNames | Vibe-HandTune_withLLM/src/emotion_analyzer.py:101-104 | The name is 중립 exactly for 3 and for numbers outside 1..5; 1..5 get five different names. |
| Emotion.AnalysisIsNamed | Vibe-HandTune_withLLM/src/emotion_analyzer.py:12-18 | Every analysis maps to one of the five names. |
| Midi.PitchIndex | Vibe-HandTune_withLLM/src/midi_generator.py:10-21 | A pitch name's index is its position in the twelve names. |
| Midi.NoteNameToNumber | Vibe-HandTune_withLLM/src/midi_generator.py:23-27 | A known name gives a number in 12..71; anything else raises. |
| Midi.PitchIndexOf | Vibe-HandTune_withLLM/src/midi_generator.py:10-21 | Each of the twelve names is found at its own position. |
| Midi.NoteTableEntries | Vibe-HandTune_withLLM/src/midi_generator.py:10-21 | The name of pitch k in octave o (0-4) maps to 12·(o+1)+k. |
| Midi.NoteTableOnly | Vibe-HandTune_withLLM/src/midi_generator.py:23-27 | Only those sixty names are accepted. |
| Midi.NoteNumbersInjective | Vibe-HandTune_withLLM/src/midi_generator.py:10-21 | Two accepted names with the same number are the same name. |
| Midi.SomeNotes | Vibe-HandTune_withLLM/src/midi_generator.py:10-27 | C4 is 60, A4 69, C0 12, B4 71; C5 and Db3 raise. |
| Midi.PyIntOfDecimal | Vibe-HandTune_withLLM/src/midi_generator.py:39 | `int()` reads a decimal numeral as its value. |
| Midi.DecimalValue | Vibe-HandTune_withLLM/src/midi_generator.py:39 | The digits of a numeral denote its value. |
| Midi.StripUnchanged | Vibe-HandTune_withLLM/src/midi_generator.py:39 | A string without surrounding whitespace is unchanged by `strip()`. |
| Midi.LengthOfDecimal | Vibe-HandTune_withLLM/src/midi_generator.py:38-48 | A part d gives 4/d when d > 0 and 1.0 when d is 0. |
| Midi.LengthOfNegative | Vibe-HandTune_withLLM/src/midi_generator.py:40-48 | A negative denominator gives 1.0. |
| Midi.LengthOfFraction | Vibe-HandTune_withLLM/src/midi_generator.py:46-48 | A part like "8.0" that `int()` rejects gives 1.0. |
| Midi.LengthOfBounds | Vibe-HandTune_withLLM/src/midi_generator.py:38-48 | Every length is positive and at most 4. |
| Midi.Rhythm | Vibe-HandTune_withLLM/src/midi_generator.py:29-50 | The rhythm always has at least one length. |
| Midi.RhythmShape | Vibe-HandTune_withLLM/src/midi_generator.py:29-50 | An empty or missing pattern gives [1.0]; otherwise one length per comma-separated part, each in (0, 4]. |
| Midi.ParseRhythm | Vibe-HandTune_withLLM/src/midi_generator.py:29-50 | The loop yields the rhythm, one length per part. |
| Midi.RhythmOfDenominators | Vibe-HandTune_withLLM/src/midi_generator.py:34-50 | A pattern of positive denominators reads back as their fractions 4/d. |
| Midi.Numbers | Vibe-HandTune_withLLM/src/midi_generator.py:90 | One lookup result per note name. |
| Midi.Emit | Vibe-HandTune_withLLM/src/midi_generator.py:80-103 | Messages come in pairs, at most two per remaining name, all at velocity 64. |
| Midi.EmitCount | Vibe-HandTune_withLLM/src/midi_generator.py:80-103 | Two messages per valid name; invalid names add none. |
| Midi.EmitPairs | Vibe-HandTune_withLLM/src/midi_generator.py:80-103 | Messages come in note_on/note_off pairs of one note at velocity 64, the first at the start time, each note_off one rhythm-slot duration after its note_on, each pair starting where the previous ended. |
| Midi.Messages | Vibe-HandTune_withLLM/src/midi_generator.py:52-105 | There are messages exactly when the tempo is not zero, then an even number, at most two per note name. |
| Midi.EmitAll | Vibe-HandTune_withLLM/src/midi_generator.py:77-103 | The loop over the notes yields the emitted messages. |
| Midi.GenerateMidiMessages | Vibe-HandTune_withLLM/src/midi_generator.py:52-105 | The method yields the messages of the preset, or the tempo-0 division error. |
| Midi.MessagesShape | Vibe-HandTune_withLLM/src/midi_generator.py:66-103 | With a non-zero tempo: twice as many messages as valid names, paired and back to back from time 0, each lasting its slot's beats at 60/tempo seconds, every note in 12..71. |

## Left out

- JWT cryptography: a token is a datatype with its secret, its id and its expiry; decoding texts is a parameter.
- The Kakao code exchange and profile fetch, the nodemailer transport and web-push delivery are inputs that succeed or fail.
- Mongoose internals: the collections are maps with an insertion order; a cast error is a `NotAnId` value.
- Express wiring, static serving, routes and the service-worker script are not part of this model.
- Concurrency: races between requests, per-record atomicity, and `thispost`, whose `forEach(async …)` fills arrays after the response (postController.js lines 109-154).
- Dates: the clock, `new Date(teachAt)`, `toUTCString` and `toISOString` are parameters; the date formatters of the cards are not modelled.
- `Math.random` in `generateCode`: the rolls are an input.
- `FE/src/api/api.js`, React rendering and styled-components are not part of this model; the page callbacks are modelled on state values.
- `encodeURIComponent` and `decodeURIComponent` in the cookie helpers are the identity for the names and values modelled.
- `document.cookie` is a string passed in or returned, not a browser cookie store.
- `getCookie`'s accumulator is `{}`, so names like `constructor` would find prototype members; only own keys are modelled.
- `toLowerCase` lowers ASCII letters only.
- `convertObjToMap` sees only strings, numbers, booleans, undefined, null and objects; functions, symbols and class instances are left out.
- Java object aliasing: `updateUser` returns the stored object itself, modelled as a copy of the updated value; `idCounter` is an unbounded integer, not a wrapping `Long`.
- Registry path ids are unbounded integers, negative ones included; a path segment that is not a 64-bit number, which Spring refuses before the controller runs, is not modelled.
- User.java is not part of this model; its fields are those the controller reads and sets.
- Python `int()`: only ASCII digits, an optional sign, underscores between digits and the whitespace `strip()` removes are modelled; Unicode digits are left out.
- Floats are exact reals in the MIDI timing; the tick conversion and `create_midi_file` (mido message objects and file writing) are left out.
- `tempo` is taken as a number; `float()` of a string preset value is not modelled, and a zero tempo is the division error.
- The OpenAI client, its caching and the prompt text are left out: the model's reply is a parameter.
- The other projects of the repository set (agent-based compression, gesture recognition, charts, the theme-park GUI, the performance utilities, the dispatch scripts) are not part of this model.
- NoteNameToNumber: the sixty-entry `NOTE_TO_MIDI` table is stated as its rule, 12·(octave+1)+semitone, with lemmas pinning entries to the rule.
- Midi.MessagesShape: the rhythm slot of pair p is stated through some position j that holds that note number, not tied to the p-th valid name.
- Auth.VerifyEmail: a token that fails `jwt.verify` throws outside any `try`; the model records that as an uncaught exception and does not model what Express then sends.
