/** The in-memory user registry of the Spring demo service: a list of users in
    insertion order and an id counter that starts at 1. Each handler answers an
    HTTP status and, for some, a body. */
module Registry {
  import opened Common

  /** A stored user. `name` and `email` are never null once stored; `age` may be. */
  datatype Member = Member(id: nat, name: string, email: string, age: Option<int>)

  /** A request body: any field may be null. */
  datatype UserBody = UserBody(name: Option<string>, email: Option<string>, age: Option<int>)

  datatype Response<T> = Response(status: int, body: Option<T>)

  /** `userList` and `idCounter`. */
  datatype Table = Table(users: seq<Member>, counter: nat)

  const Initial := Table([], 1)

  /** The registry's invariant: ids are strictly increasing along the list and all
      below the counter, which is at least 1. */
  predicate Valid(s: Table) {
    s.counter >= 1 && IdsWithin(s.users, 0, s.counter) && Increasing(s.users)
  }

  /** Every id lies strictly between `lo` and `hi`. */
  predicate IdsWithin(users: seq<Member>, lo: int, hi: int) {
    forall i :: 0 <= i < |users| ==> lo < users[i].id < hi
  }

  predicate Increasing(users: seq<Member>) {
    forall i, j :: 0 <= i < j < |users| ==> users[i].id < users[j].id
  }

  lemma InitialValid()
    ensures Valid(Initial)
  {
  }

  /** `addUser`. */
  function Add(s: Table, b: UserBody): (r: (Table, Response<Member>))
    ensures r.1.status == 201 || r.1.status == 400
    ensures r.1.status == 201 ==> r.1.body.Some? && r.1.body.value.id == s.counter && r.0.counter == s.counter + 1
  {
    if b.name.None? || b.email.None? then (s, Response(400, None))
    else
      var u := Member(s.counter, b.name.value, b.email.value, b.age);
      (Table(s.users + [u], s.counter + 1), Response(201, Some(u)))
  }

  /** The index of the first user with id `id`, as `filter(...).findFirst()`. */
  function FirstIndex(users: seq<Member>, id: int): (r: Option<nat>)
    ensures r.Some? ==> r.value < |users| && users[r.value].id == id
                        && forall j :: 0 <= j < r.value ==> users[j].id != id
    ensures r.None? ==> forall j :: 0 <= j < |users| ==> users[j].id != id
  {
    if users == [] then None
    else if users[0].id == id then Some(0)
    else
      match FirstIndex(users[1..], id)
      case None => None
      case Some(k) => Some(k + 1)
  }

  /** `getUserById`. */
  function Get(s: Table, id: int): (r: Response<Member>)
    ensures r.status == 200 || r.status == 404
    ensures r.status == 200 ==> r.body.Some? && r.body.value.id == id && r.body.value in s.users
  {
    match FirstIndex(s.users, id)
    case None => Response(404, None)
    case Some(i) => Response(200, Some(s.users[i]))
  }

  /** The fields of `b` that are not null overwrite those of `u`. */
  function Patch(u: Member, b: UserBody): Member {
    Member(u.id,
           if b.name.Some? then b.name.value else u.name,
           if b.email.Some? then b.email.value else u.email,
           if b.age.Some? then b.age else u.age)
  }

  /** `updateUser`. */
  function Update(s: Table, id: int, b: UserBody): (r: (Table, Response<Member>))
    ensures r.1.status == 200 || r.1.status == 404
    ensures r.0.counter == s.counter && |r.0.users| == |s.users|
    ensures r.1.status == 200 ==> r.1.body.Some? && r.1.body.value.id == id
  {
    match FirstIndex(s.users, id)
    case None => (s, Response(404, None))
    case Some(i) =>
      var u := Patch(s.users[i], b);
      (s.(users := s.users[i := u]), Response(200, Some(u)))
  }

  /** `userList.removeIf(user -> user.getId().equals(id))`. */
  function Without(users: seq<Member>, id: int): (r: seq<Member>)
    ensures forall j :: 0 <= j < |r| ==> r[j].id != id
    ensures forall j :: 0 <= j < |r| ==> r[j] in users
    ensures forall j :: 0 <= j < |users| && users[j].id != id ==> users[j] in r
    ensures |r| <= |users|
    ensures (forall j :: 0 <= j < |users| ==> users[j].id != id) ==> r == users
  {
    if users == [] then []
    else
      var rest := Without(users[1..], id);
      assert users == [users[0]] + users[1..];
      if users[0].id == id then rest else [users[0]] + rest
  }

  /** `deleteUser`: 204 when something was removed, 404 otherwise. */
  function Delete(s: Table, id: int): (r: (Table, Response<()>))
    ensures r.1.status == 204 || r.1.status == 404
    ensures r.0.counter == s.counter && |r.0.users| <= |s.users|
    ensures forall j :: 0 <= j < |r.0.users| ==> r.0.users[j].id != id
  {
    var rest := Without(s.users, id);
    (s.(users := rest), Response(if |rest| < |s.users| then 204 else 404, None))
  }

  /** A null name or email is refused with 400 and changes nothing; otherwise the
      user gets the counter as id, is appended, the counter moves on and 201 is
      answered with the stored user. */
  lemma AddOutcome(s: Table, b: UserBody)
    ensures var (t, r) := Add(s, b);
      && (b.name.None? || b.email.None? ==> t == s && r == Response(400, None))
      && (b.name.Some? && b.email.Some? ==>
            && r.status == 201 && r.body == Some(Member(s.counter, b.name.value, b.email.value, b.age))
            && t.users == s.users + [r.body.value] && t.counter == s.counter + 1)
  {
  }

  /** Every handler keeps the invariant, so ids stay strictly increasing from 1. */
  lemma AddKeepsValid(s: Table, b: UserBody)
    requires Valid(s)
    ensures Valid(Add(s, b).0)
  {
  }

  lemma UpdateKeepsValid(s: Table, id: int, b: UserBody)
    requires Valid(s)
    ensures Valid(Update(s, id, b).0)
  {
  }

  /** Removing users keeps every remaining id within the same bounds. */
  lemma {:induction false} WithoutWithin(users: seq<Member>, id: int, lo: int, hi: int)
    requires IdsWithin(users, lo, hi)
    ensures IdsWithin(Without(users, id), lo, hi)
  {
    if users != [] {
      assert IdsWithin(users[1..], lo, hi) by {
        forall i | 0 <= i < |users[1..]| ensures lo < users[1..][i].id < hi {
          assert users[1..][i] == users[i + 1];
        }
      }
      WithoutWithin(users[1..], id, lo, hi);
    }
  }

  predicate IdsAbove(users: seq<Member>, lo: int) {
    forall i :: 0 <= i < |users| ==> lo < users[i].id
  }

  lemma {:induction false} WithoutAbove(users: seq<Member>, id: int, lo: int)
    requires IdsAbove(users, lo)
    ensures IdsAbove(Without(users, id), lo)
  {
    if users != [] {
      assert IdsAbove(users[1..], lo) by {
        forall i | 0 <= i < |users[1..]| ensures lo < users[1..][i].id {
          assert users[1..][i] == users[i + 1];
        }
      }
      WithoutAbove(users[1..], id, lo);
    }
  }

  lemma ConsIncreasing(x: Member, rest: seq<Member>)
    requires Increasing(rest) && IdsAbove(rest, x.id)
    ensures Increasing([x] + rest)
  {
    var r := [x] + rest;
    forall i, j | 0 <= i < j < |r| ensures r[i].id < r[j].id {
      assert r[j] == rest[j - 1];
      if i > 0 {
        assert r[i] == rest[i - 1];
      }
    }
  }

  /** Removing users keeps the ids increasing. */
  lemma {:induction false} WithoutIncreasing(users: seq<Member>, id: int)
    requires Increasing(users)
    ensures Increasing(Without(users, id))
  {
    if users != [] {
      var tail := users[1..];
      assert Increasing(tail) by {
        forall i, j | 0 <= i < j < |tail| ensures tail[i].id < tail[j].id {
          assert tail[i] == users[i + 1] && tail[j] == users[j + 1];
        }
      }
      WithoutIncreasing(tail, id);
      if users[0].id != id {
        assert IdsAbove(tail, users[0].id) by {
          forall i | 0 <= i < |tail| ensures users[0].id < tail[i].id {
            assert tail[i] == users[i + 1];
          }
        }
        WithoutAbove(tail, id, users[0].id);
        ConsIncreasing(users[0], Without(tail, id));
      }
    }
  }

  lemma DeleteKeepsValid(s: Table, id: int)
    requires Valid(s)
    ensures Valid(Delete(s, id).0)
  {
    WithoutWithin(s.users, id, 0, s.counter);
    WithoutIncreasing(s.users, id);
  }

  /** A user added to a valid registry is found by its id, with the fields sent. */
  lemma AddThenGet(s: Table, b: UserBody)
    requires Valid(s) && b.name.Some? && b.email.Some?
    ensures var (t, r) := Add(s, b);
      Get(t, r.body.value.id) == Response(200, Some(Member(s.counter, b.name.value, b.email.value, b.age)))
  {
    var t := Add(s, b).0;
    var n := |s.users|;
    assert forall j :: 0 <= j < n ==> t.users[j].id != s.counter;
    assert t.users[n].id == s.counter;
    assert FirstIndex(t.users, s.counter) == Some(n);
  }

  /** `getUserById` answers 404 exactly when no user has the id, and otherwise the
      first user with it. */
  lemma GetOutcome(s: Table, id: int)
    ensures Get(s, id).status == 404 <==> forall j :: 0 <= j < |s.users| ==> s.users[j].id != id
    ensures Get(s, id).status == 200 ==>
      exists i :: 0 <= i < |s.users| && Get(s, id).body == Some(s.users[i]) && s.users[i].id == id
                  && forall j :: 0 <= j < i ==> s.users[j].id != id
  {
    if Get(s, id).status == 200 {
      var i := FirstIndex(s.users, id).value;
      assert Get(s, id).body == Some(s.users[i]);
    }
  }

  /** An update changes only the first user with the id, only in the fields sent,
      and never the id; with no such user it answers 404 and changes nothing. */
  lemma UpdateOutcome(s: Table, id: int, b: UserBody)
    ensures var (t, r) := Update(s, id, b);
      && ((forall j :: 0 <= j < |s.users| ==> s.users[j].id != id) ==> t == s && r == Response(404, None))
      && (r.status == 200 ==>
            && t.counter == s.counter && |t.users| == |s.users|
            && exists i :: 0 <= i < |s.users| && s.users[i].id == id
                 && (forall j :: 0 <= j < i ==> s.users[j].id != id)
                 && r.body == Some(t.users[i])
                 && t.users[i].id == id
                 && t.users[i].name == (if b.name.Some? then b.name.value else s.users[i].name)
                 && t.users[i].email == (if b.email.Some? then b.email.value else s.users[i].email)
                 && t.users[i].age == (if b.age.Some? then b.age else s.users[i].age)
                 && forall j :: 0 <= j < |s.users| && j != i ==> t.users[j] == s.users[j])
  {
    if Update(s, id, b).1.status == 200 {
      var i := FirstIndex(s.users, id).value;
      assert Update(s, id, b).0.users[i] == Patch(s.users[i], b);
    }
  }

  /** A delete removes every user with the id and keeps the others in order; it
      answers 204 exactly when some user had the id, and afterwards a lookup of the
      id answers 404. */
  lemma DeleteOutcome(s: Table, id: int)
    ensures var (t, r) := Delete(s, id);
      && t.counter == s.counter
      && (r.status == 204 <==> exists j :: 0 <= j < |s.users| && s.users[j].id == id)
      && (r.status == 404 ==> t == s)
      && Get(t, id) == Response(404, None)
  {
    var t := Delete(s, id).0;
    if exists j :: 0 <= j < |s.users| && s.users[j].id == id {
      var j :| 0 <= j < |s.users| && s.users[j].id == id;
      WithoutShorter(s.users, id, j);
    }
  }

  lemma {:induction false} WithoutShorter(users: seq<Member>, id: int, j: int)
    requires 0 <= j < |users| && users[j].id == id
    ensures |Without(users, id)| < |users|
  {
    if users[0].id != id {
      WithoutShorter(users[1..], id, j - 1);
    }
  }

  /** An id once handed out is never handed out again: after it is deleted, no later
      add brings back a user with that id. */
  lemma DeletedIdStaysFree(s: Table, id: int, b: UserBody)
    requires Valid(s) && id < s.counter
    requires forall j :: 0 <= j < |s.users| ==> s.users[j].id != id
    ensures var t := Add(s, b).0;
      && id < t.counter && forall j :: 0 <= j < |t.users| ==> t.users[j].id != id
  {
  }

  /** The path id is a `Long`, so zero and negative ids reach the handlers; no
      stored user has one, so each lookup answers 404 and nothing changes. */
  lemma NonPositiveIdNotFound(s: Table, id: int, b: UserBody)
    requires Valid(s) && id <= 0
    ensures Get(s, id) == Response(404, None)
    ensures Update(s, id, b) == (s, Response(404, None))
    ensures Delete(s, id) == (s, Response(404, None))
  {
  }

  /** `getUserCount` is the list size, and only a successful add or delete
      changes it. */
  lemma CountChanges(s: Table, b: UserBody, id: int, c: UserBody)
    ensures |Add(s, b).0.users| == |s.users| + (if Add(s, b).1.status == 201 then 1 else 0)
    ensures |Update(s, id, c).0.users| == |s.users|
    ensures Delete(s, id).1.status == 404 ==> |Delete(s, id).0.users| == |s.users|
  {
  }

  /** The controller object: the methods assign its two fields. */
  class UserController {
    var userList: seq<Member>
    var idCounter: nat

    function State(): Table
      reads this
    {
      Table(userList, idCounter)
    }

    constructor()
      ensures State() == Initial
    {
      userList := [];
      idCounter := 1;
    }

    method AddUser(user: UserBody) returns (r: Response<Member>)
      modifies this
      ensures (State(), r) == Add(old(State()), user)
    {
      if user.name.None? || user.email.None? {
        return Response(400, None);
      }
      var id := idCounter;
      idCounter := idCounter + 1;
      var u := Member(id, user.name.value, user.email.value, user.age);
      userList := userList + [u];
      r := Response(201, Some(u));
    }

    /** `getAllUsers`: the list in insertion order. */
    method GetAllUsers() returns (r: Response<seq<Member>>)
      ensures r == Response(200, Some(userList))
    {
      r := Response(200, Some(userList));
    }

    method GetUserById(id: int) returns (r: Response<Member>)
      ensures r == Get(State(), id)
    {
      var i := FirstIndex(userList, id);
      if i.None? {
        r := Response(404, None);
      } else {
        r := Response(200, Some(userList[i.value]));
      }
    }

    /** `updateUser`: the loop stops at the first user with the id. */
    method UpdateUser(id: int, updatedUser: UserBody) returns (r: Response<Member>)
      modifies this
      ensures (State(), r) == Update(old(State()), id, updatedUser)
    {
      var i := 0;
      while i < |userList|
        invariant 0 <= i <= |userList|
        invariant forall j :: 0 <= j < i ==> userList[j].id != id
        invariant userList == old(userList) && idCounter == old(idCounter)
      {
        if userList[i].id == id {
          var user := userList[i];
          if updatedUser.name.Some? {
            user := user.(name := updatedUser.name.value);
          }
          if updatedUser.email.Some? {
            user := user.(email := updatedUser.email.value);
          }
          if updatedUser.age.Some? {
            user := user.(age := updatedUser.age);
          }
          assert FirstIndex(userList, id) == Some(i);
          userList := userList[i := user];
          return Response(200, Some(user));
        }
        i := i + 1;
      }
      r := Response(404, None);
    }

    method DeleteUser(id: int) returns (r: Response<()>)
      modifies this
      ensures (State(), r) == Delete(old(State()), id)
    {
      var before := |userList|;
      userList := Without(userList, id);
      r := Response(if |userList| < before then 204 else 404, None);
    }

    method GetUserCount() returns (r: Response<nat>)
      ensures r == Response(200, Some(|userList|))
    {
      r := Response(200, Some(|userList|));
    }
  }
}
