/** Role assignment (BE/server/src/controllers/roleController.js). */
module Role {
  import opened Common
  import opened Tokens
  import opened Records
  import opened Guard

  /** `myrole`: after the guard, any truthy `role` is stored as given. */
  function MyRoleStep(db: Db, header: Option<string>, role: Option<string>,
                      decode: string -> Option<Token>, nowMs: nat): (r: Step<()>)
    ensures !r.reply.Ok? ==> r.db == db && r.reply.Err?
    ensures r.reply.Ok? ==> Truthy(role)
    ensures r.db.users.Keys == db.users.Keys && r.db.userOrder == db.userOrder && r.db.posts == db.posts
  {
    match Authenticate(db, header, decode, nowMs)
    case Reject(s, e) => Step(db, Err(s, e))
    case Accept(uid) =>
      if !Truthy(role) then Step(db, Err(400, InvalidRole))
      else Step(WithUser(db, uid, db.users[uid].(role := role)), Ok(200, ()))
  }

  /** A rejected request changes nothing. An accepted one stores the role
      exactly as sent (there is no check against `learner`/`giver`, and an
      earlier role is overwritten) and touches no other field or user. */
  lemma MyRoleOutcome(db: Db, header: Option<string>, role: Option<string>,
                      decode: string -> Option<Token>, nowMs: nat)
    ensures var r := MyRoleStep(db, header, role, decode, nowMs);
      && (!r.reply.Ok? ==> r.db == db)
      && (Authenticate(db, header, decode, nowMs).Accept? && !Truthy(role) ==> r.reply == Err(400, InvalidRole))
      && (r.reply.Ok? <==> Authenticate(db, header, decode, nowMs).Accept? && Truthy(role))
      && (r.reply.Ok? ==>
            var uid := Authenticate(db, header, decode, nowMs).value;
            r.db == db.(users := db.users[uid := db.users[uid].(role := role)]))
  {
  }

  lemma MyRoleKeepsValid(db: Db, header: Option<string>, role: Option<string>,
                         decode: string -> Option<Token>, nowMs: nat)
    requires Valid(db)
    ensures Valid(MyRoleStep(db, header, role, decode, nowMs).db)
  {
    var a := Authenticate(db, header, decode, nowMs);
    if a.Accept? && Truthy(role) {
      UpdateUserValid(db, a.value, db.users[a.value].(role := role));
    }
  }

  method MyRole(st: Store, header: Option<string>, role: Option<string>,
                decode: string -> Option<Token>, nowMs: nat) returns (r: Reply<()>)
    modifies st
    ensures Step(st.State(), r) == MyRoleStep(old(st.State()), header, role, decode, nowMs)
  {
    var auth := Authenticate(st.State(), header, decode, nowMs);
    if auth.Reject? {
      return Err(auth.status, auth.error);
    }
    if !Truthy(role) {
      return Err(400, InvalidRole);
    }
    st.users := st.users[auth.value := st.users[auth.value].(role := role)];
    r := Ok(200, ());
  }
}
