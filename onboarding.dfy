/** The onboarding flow that follows the first login: choose a role (`/role`),
    verify a school email when teaching (`/email-verification`), then a final
    confirmation page (`/verification-success`). The API answers and the text in
    the input box are parameters; `localStorage` is a map field. */
module Onboarding {
  import opened Common

  const Routes: seq<string> := ["/role", "/email-verification", "/verification-success"]

  /** `routes[k]`, which is `undefined` outside the array. */
  function RouteAt(k: int): Option<string> {
    if 0 <= k < |Routes| then Some(Routes[k]) else None
  }

  /** The initial `step` chosen from the pathname. */
  function InitialStep(pathname: string): (step: int)
    ensures 0 <= step <= 2
    ensures pathname in Routes ==> RouteAt(step) == Some(pathname)
    ensures pathname !in Routes ==> step == 0
  {
    if pathname == "/verification-success" then 2
    else if pathname == "/email-verification" then 1
    else 0
  }

  /** A call to `navigate`; `replace` is the `{ replace: true }` option. A `None`
      target is `navigate(undefined)`. */
  datatype Nav = Nav(target: Option<string>, replace: bool)

  /** The API call a press of "next" made. */
  datatype ApiCall = RequestCode(email: string) | CheckCode(code: string, role: string)

  /** The state the callbacks read and write: the React state, the text in the
      email/code input, and `localStorage`. */
  datatype Screen = Screen(step: int, tempRole: string, isRequestEmail: bool, check: string,
                           input: string, storage: map<string, string>)

  /** What a press of "next" did besides changing the state. */
  datatype Effects = Effects(nav: Option<Nav>, call: Option<ApiCall>)

  /** The screen as the component mounts: the step from the pathname and the role
      saved by an earlier visit, or "". */
  function Mount(pathname: string, storage: map<string, string>): (s: Screen)
    ensures pathname in Routes ==> RouteAt(s.step) == Some(pathname)
    ensures s.storage == storage && !s.isRequestEmail && s.check == ""
    ensures s.tempRole != "" ==> "tempRole" in storage && storage["tempRole"] == s.tempRole
  {
    var saved := if "tempRole" in storage && storage["tempRole"] != "" then storage["tempRole"] else "";
    Screen(InitialStep(pathname), saved, false, "", "", storage)
  }

  /** `moveNextPage` on `pathname`; `flag` is what the API call of this press
      answers, if it makes one. */
  function Next(s: Screen, pathname: string, flag: string): (r: (Screen, Effects))
    ensures r.0.step >= s.step && r.0.tempRole == s.tempRole
    ensures r.1.call.Some? ==> s.tempRole == "giver" && pathname == "/email-verification"
    ensures r.1.nav.Some? ==> !r.1.nav.value.replace
  {
    if pathname == "/verification-success" then (s, Effects(Some(Nav(Some("/home"), false)), None))
    else
      var s1 := if s.step == 0 then s.(storage := s.storage["tempRole" := s.tempRole]) else s;
      if s.step == 0 && s.tempRole == "learner" then
        (s1.(step := 2, storage := s1.storage["isEmailVerified" := "true"]),
         Effects(Some(Nav(Some("/verification-success"), false)), None))
      else if s.tempRole == "giver" && pathname == "/email-verification" then
        if !s.isRequestEmail then
          var ok := flag == "success";
          (s1.(check := flag, isRequestEmail := ok, input := if ok then "" else s.input),
           Effects(None, Some(RequestCode(s.input))))
        else
          var s2 := s1.(check := flag, input := "");
          var call := Some(CheckCode(s.input, s.tempRole));
          if flag != "success" then (s2, Effects(None, call))
          else
            (s2.(step := s.step + 1, storage := s2.storage["isEmailVerified" := "true"]),
             Effects(Some(Nav(RouteAt(s.step + 1), false)), call))
      else
        (s1.(step := s.step + 1), Effects(Some(Nav(RouteAt(s.step + 1), false)), None))
  }

  /** `movePrevPage`. */
  function Prev(s: Screen): (r: (Screen, Nav))
    ensures r.0.tempRole == s.tempRole && r.0.storage == s.storage && r.0.input == s.input
    ensures r.0.step <= s.step
    ensures r.1.target.Some? ==> r.1.target.value == "/" || r.1.target.value in Routes
  {
    if s.step == 0 then (s, Nav(Some("/"), false))
    else (s.(isRequestEmail := false, check := "", step := s.step - 1), Nav(RouteAt(s.step - 1), true))
  }

  /** The effect that resynchronises `step` with the pathname. */
  function Sync(s: Screen, pathname: string): (t: Screen)
    ensures pathname in Routes ==> RouteAt(t.step) == Some(pathname)
    ensures pathname !in Routes ==> t == s
    ensures t == s.(step := t.step)
  {
    var k := if pathname == Routes[0] then 0 else if pathname == Routes[1] then 1
             else if pathname == Routes[2] then 2 else -1;
    if k != -1 && k != s.step then s.(step := k) else s
  }

  /** Going back at the first step leaves for `/` and changes nothing; otherwise the
      step decreases by one, the request flag and the check are cleared and the
      previous route replaces the current one. */
  lemma PrevOutcome(s: Screen)
    ensures var (t, nav) := Prev(s);
      && (s.step == 0 ==> t == s && nav == Nav(Some("/"), false))
      && (s.step != 0 ==> t == s.(step := s.step - 1, isRequestEmail := false, check := "")
                          && nav == Nav(RouteAt(s.step - 1), true))
  {
  }

  /** On the last page "next" only leaves for `/home`. */
  lemma NextOnLastPage(s: Screen, flag: string)
    ensures Next(s, "/verification-success", flag) == (s, Effects(Some(Nav(Some("/home"), false)), None))
  {
  }

  /** A learner skips the email step: the chosen role and the verified flag are
      stored and the flow jumps to the last page. */
  lemma LearnerSkipsEmail(s: Screen, pathname: string, flag: string)
    requires s.step == 0 && s.tempRole == "learner" && pathname != "/verification-success"
    ensures var (t, e) := Next(s, pathname, flag);
      && t.step == 2 && e.nav == Some(Nav(Some("/verification-success"), false)) && e.call.None?
      && t.storage == s.storage["tempRole" := "learner"]["isEmailVerified" := "true"]
      && t.check == s.check && t.isRequestEmail == s.isRequestEmail
  {
  }

  /** A giver's first press on the email page requests a code for the typed address,
      never moves on, and marks the request made only on success. */
  lemma GiverRequestsCode(s: Screen, flag: string)
    requires s.tempRole == "giver" && !s.isRequestEmail && s.step != 0
    ensures var (t, e) := Next(s, "/email-verification", flag);
      && e == Effects(None, Some(RequestCode(s.input)))
      && t.step == s.step && t.storage == s.storage && t.check == flag
      && (t.isRequestEmail <==> flag == "success")
      && t.input == (if flag == "success" then "" else s.input)
  {
  }

  /** A giver's later press checks the typed code and moves on (storing the
      verified flag) exactly when the answer is "success"; the box is cleared
      either way. */
  lemma GiverChecksCode(s: Screen, flag: string)
    requires s.tempRole == "giver" && s.isRequestEmail && s.step != 0
    ensures var (t, e) := Next(s, "/email-verification", flag);
      && e.call == Some(CheckCode(s.input, "giver"))
      && t.check == flag && t.input == ""
      && (flag == "success" ==> t.step == s.step + 1 && e.nav == Some(Nav(RouteAt(s.step + 1), false))
                                && t.storage == s.storage["isEmailVerified" := "true"])
      && (flag != "success" ==> t.step == s.step && e.nav.None? && t.storage == s.storage)
  {
  }

  /** Any other press moves one step forward without calling the API; a role
      that is neither chosen as learner nor as giver is not stopped at the
      first step. */
  lemma OtherwiseAdvance(s: Screen, pathname: string, flag: string)
    requires pathname != "/verification-success"
    requires !(s.step == 0 && s.tempRole == "learner")
    requires !(s.tempRole == "giver" && pathname == "/email-verification")
    ensures var (t, e) := Next(s, pathname, flag);
      && t.step == s.step + 1 && e == Effects(Some(Nav(RouteAt(s.step + 1), false)), None)
      && t.isRequestEmail == s.isRequestEmail && t.check == s.check
  {
  }

  /** After a sync on one of the three routes the step names that route; on any
      other path the step is kept. */
  lemma SyncOutcome(s: Screen, pathname: string)
    ensures pathname in Routes ==> RouteAt(Sync(s, pathname).step) == Some(pathname)
    ensures pathname !in Routes ==> Sync(s, pathname) == s
    ensures Sync(s, pathname).(step := s.step) == s
  {
  }

  /** The mounted component: its state lives in fields the callbacks assign. */
  class RoleSelection {
    var step: int
    var tempRole: string
    var isRequestEmail: bool
    var check: string
    var input: string
    var storage: map<string, string>

    function State(): Screen
      reads this
    {
      Screen(step, tempRole, isRequestEmail, check, input, storage)
    }

    constructor(pathname: string, saved: map<string, string>)
      ensures State() == Mount(pathname, saved)
    {
      if pathname == "/verification-success" {
        step := 2;
      } else if pathname == "/email-verification" {
        step := 1;
      } else {
        step := 0;
      }
      tempRole := if "tempRole" in saved && saved["tempRole"] != "" then saved["tempRole"] else "";
      isRequestEmail := false;
      check := "";
      input := "";
      storage := saved;
    }

    /** `selectTempRole`. */
    method SelectTempRole(select: string)
      modifies this
      ensures State() == old(State()).(tempRole := select)
    {
      tempRole := select;
    }

    /** Typing into the email/code box. */
    method Type(text: string)
      modifies this
      ensures State() == old(State()).(input := text)
    {
      input := text;
    }

    /** `moveNextPage`. */
    method MoveNext(pathname: string, flag: string) returns (e: Effects)
      modifies this
      ensures (State(), e) == Next(old(State()), pathname, flag)
    {
      var typed := input;
      if pathname == "/verification-success" {
        return Effects(Some(Nav(Some("/home"), false)), None);
      }
      if step == 0 {
        storage := storage["tempRole" := tempRole];
        if tempRole == "learner" {
          storage := storage["isEmailVerified" := "true"];
          step := 2;
          return Effects(Some(Nav(Some("/verification-success"), false)), None);
        }
      }
      var call: Option<ApiCall> := None;
      if tempRole == "giver" && pathname == "/email-verification" {
        if !isRequestEmail {
          check := flag;
          if flag == "success" {
            isRequestEmail := true;
            input := "";
          }
          return Effects(None, Some(RequestCode(typed)));
        }
        call := Some(CheckCode(input, tempRole));
        check := flag;
        input := "";
        if flag != "success" {
          return Effects(None, call);
        }
        storage := storage["isEmailVerified" := "true"];
      }
      step := step + 1;
      e := Effects(Some(Nav(RouteAt(step), false)), call);
    }

    /** `movePrevPage`. */
    method MovePrev() returns (nav: Nav)
      modifies this
      ensures (State(), nav) == Prev(old(State()))
    {
      if step == 0 {
        return Nav(Some("/"), false);
      }
      isRequestEmail := false;
      check := "";
      step := step - 1;
      nav := Nav(RouteAt(step), true);
    }

    /** The path-sync effect. */
    method SyncPath(pathname: string)
      modifies this
      ensures State() == Sync(old(State()), pathname)
    {
      // `routes.indexOf(pathname)`
      var k := if pathname == Routes[0] then 0 else if pathname == Routes[1] then 1
               else if pathname == Routes[2] then 2 else -1;
      if k != -1 && k != step {
        step := k;
      }
    }
  }
}
