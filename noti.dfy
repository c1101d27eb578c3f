/** Web-push subscription and sending (BE/server/src/controllers/notiController.js).
    Delivery is fire-and-forget: the push is an output of the handler, and
    whether it arrives is not modelled. */
module Noti {
  import opened Common
  import opened Tokens
  import opened Records
  import opened Guard

  /** `JSON.stringify({title, body})`; an undefined `text` leaves `body` out. */
  datatype Payload = Payload(title: string, body: Option<string>)

  /** `sendpush(user.subscription, payload)`. */
  datatype Push = Push(to: Subscription, payload: Payload)

  const PushTitle: string := "알림"

  /** `subscription`: after the guard, the body's `subscription` is stored on the
      caller unchanged. */
  function SubscriptionStep(db: Db, header: Option<string>, sub: Subscription,
                            decode: string -> Option<Token>, nowMs: nat): (r: Step<()>)
    ensures !r.reply.Ok? ==> r.db == db && r.reply.Err? && r.reply.status == 401
    ensures r.db.users.Keys == db.users.Keys && r.db.userOrder == db.userOrder && r.db.posts == db.posts
  {
    match Authenticate(db, header, decode, nowMs)
    case Reject(s, e) => Step(db, Err(s, e))
    case Accept(uid) => Step(WithUser(db, uid, db.users[uid].(subscription := sub)), Ok(200, ()))
  }

  /** `sendPush`: the reply and the push handed to the push service, if any. The
      reply does not wait for delivery. */
  function SendPush(db: Db, header: Option<string>, text: Option<string>,
                    decode: string -> Option<Token>, nowMs: nat): (r: (Reply<()>, Option<Push>))
    ensures r.1.Some? <==> r.0.Ok?
    ensures r.1.Some? ==> r.1.value.payload.title == PushTitle && r.1.value.payload.body == text
  {
    match Authenticate(db, header, decode, nowMs)
    case Reject(s, e) => (Err(s, e), None)
    case Accept(uid) => (Ok(200, ()), Some(Push(db.users[uid].subscription, Payload(PushTitle, text))))
  }

  /** Both handlers answer the guard's 401s unchanged; `subscription` then stores
      exactly the given value on the caller and nothing else. */
  lemma SubscriptionOutcome(db: Db, header: Option<string>, sub: Subscription,
                            decode: string -> Option<Token>, nowMs: nat)
    ensures var r := SubscriptionStep(db, header, sub, decode, nowMs);
      && (r.reply.Ok? <==> Authenticate(db, header, decode, nowMs).Accept?)
      && (!r.reply.Ok? ==> r.db == db && r.reply.status == 401)
      && (r.reply.Ok? ==>
            var uid := Authenticate(db, header, decode, nowMs).value;
            r.db == db.(users := db.users[uid := db.users[uid].(subscription := sub)]))
  {
  }

  lemma SubscriptionKeepsValid(db: Db, header: Option<string>, sub: Subscription,
                               decode: string -> Option<Token>, nowMs: nat)
    requires Valid(db)
    ensures Valid(SubscriptionStep(db, header, sub, decode, nowMs).db)
  {
    var a := Authenticate(db, header, decode, nowMs);
    if a.Accept? {
      UpdateUserValid(db, a.value, db.users[a.value].(subscription := sub));
    }
  }

  /** A push goes out exactly when the reply is 200; it is addressed to the
      caller's stored subscription and carries the title `알림` and the text. */
  lemma SendPushOutcome(db: Db, header: Option<string>, text: Option<string>,
                        decode: string -> Option<Token>, nowMs: nat)
    ensures var (reply, push) := SendPush(db, header, text, decode, nowMs);
      && (push.Some? <==> reply == Ok(200, ()))
      && (push.None? ==> reply.Err? && reply.status == 401)
      && (push.Some? ==>
            push.value.payload == Payload("알림", text) &&
            push.value.to == db.users[Authenticate(db, header, decode, nowMs).value].subscription)
  {
  }

  /** A subscription stored by the caller is where that caller's next push goes. */
  lemma SubscribeThenPush(db: Db, header: Option<string>, sub: Subscription, text: Option<string>,
                          decode: string -> Option<Token>, t1: nat, t2: nat)
    requires SubscriptionStep(db, header, sub, decode, t1).reply.Ok?
    requires Verify(decode, BearerToken(header).value, JwtSecret2, t2) == Verify(decode, BearerToken(header).value, JwtSecret2, t1)
    ensures var d := SubscriptionStep(db, header, sub, decode, t1).db;
      SendPush(d, header, text, decode, t2).1 == Some(Push(sub, Payload(PushTitle, text)))
  {
    var uid := Authenticate(db, header, decode, t1).value;
    var pid := Verify(decode, BearerToken(header).value, JwtSecret2, t1).value;
    FirstWithProviderUpdate(db.userOrder, db.users, uid, db.users[uid].(subscription := sub), pid);
  }

  method Subscribe(st: Store, header: Option<string>, sub: Subscription,
                   decode: string -> Option<Token>, nowMs: nat) returns (r: Reply<()>)
    modifies st
    ensures Step(st.State(), r) == SubscriptionStep(old(st.State()), header, sub, decode, nowMs)
  {
    var auth := Authenticate(st.State(), header, decode, nowMs);
    if auth.Reject? {
      return Err(auth.status, auth.error);
    }
    st.users := st.users[auth.value := st.users[auth.value].(subscription := sub)];
    r := Ok(200, ());
  }
}
