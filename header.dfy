/** The page header: which of the back button and the logo is shown, the page
    title picked from a whitelist of path fragments, and the header height. */
module HeaderBar {
  import opened Common

  /** `checkAvailBackBtn`. */
  predicate BackButton(pathname: string) {
    pathname != "/home"
  }

  /** `checkAvailLogo`. */
  predicate Logo(pathname: string) {
    pathname == "/home"
  }

  /** Exactly one of the back button and the logo appears on every page. */
  lemma ExactlyOneOfBackAndLogo(pathname: string)
    ensures BackButton(pathname) != Logo(pathname)
    ensures Logo(pathname) <==> pathname == "/home"
  {
  }

  datatype Entry = Entry(path: string, name: string)

  /** The whitelist of `checkAvailPageName`, in source order. */
  const WhiteList: seq<Entry> := [
    Entry("/mypage", "프로필"),
    Entry("/edu/apply", "학습 신청"),
    Entry("/edu/register", "교육 정보 등록하기"),
    Entry("/edu/matching", "신청자 목록")
  ]

  /** The name of the last entry of `entries` whose path occurs anywhere in
      `pathname` (`pathname.indexOf(item.path) !== -1`), or "" when none does. */
  function LastMatch(entries: seq<Entry>, pathname: string): string {
    if entries == [] then ""
    else if Includes(pathname, entries[|entries| - 1].path) then entries[|entries| - 1].name
    else LastMatch(entries[..|entries| - 1], pathname)
  }

  /** `checkAvailPageName`: the `map` callback runs over the whitelist in order and
      reassigns `name` at every entry that matches. */
  method PageName(pathname: string) returns (name: string)
    ensures name == LastMatch(WhiteList, pathname)
  {
    name := "";
    var i := 0;
    while i < |WhiteList|
      invariant 0 <= i <= |WhiteList|
      invariant name == LastMatch(WhiteList[..i], pathname)
    {
      assert WhiteList[..i + 1][..i] == WhiteList[..i];
      if IndexOf(pathname, WhiteList[i].path) != -1 {
        name := WhiteList[i].name;
      }
      i := i + 1;
    }
    assert WhiteList[..i] == WhiteList;
  }

  /** Pair `i` is the last entry whose path occurs in `pathname`. */
  predicate LastMatching(entries: seq<Entry>, pathname: string, i: int) {
    0 <= i < |entries| && Includes(pathname, entries[i].path)
    && forall j :: i < j < |entries| ==> !Includes(pathname, entries[j].path)
  }

  /** The page name is "" exactly when no entry matches (no name being empty). */
  lemma {:induction false} LastMatchEmpty(entries: seq<Entry>, pathname: string)
    requires forall k :: 0 <= k < |entries| ==> entries[k].name != ""
    ensures LastMatch(entries, pathname) == "" <==>
      forall k :: 0 <= k < |entries| ==> !Includes(pathname, entries[k].path)
  {
    if entries != [] {
      var n := |entries| - 1;
      var front := entries[..n];
      assert forall k :: 0 <= k < n ==> front[k] == entries[k];
      LastMatchEmpty(front, pathname);
    }
  }

  /** The page name is the name of the last matching entry. */
  lemma {:induction false} LastMatchLast(entries: seq<Entry>, pathname: string, i: int)
    requires LastMatching(entries, pathname, i)
    ensures LastMatch(entries, pathname) == entries[i].name
  {
    var n := |entries| - 1;
    if i < n {
      var front := entries[..n];
      assert front[i] == entries[i];
      assert LastMatching(front, pathname, i);
      LastMatchLast(front, pathname, i);
    }
  }

  /** On the whitelist: the page name is "" exactly when no whitelisted path occurs,
      and otherwise it is the name of the last whitelisted path that occurs. */
  lemma PageNameMeaning(pathname: string)
    ensures LastMatch(WhiteList, pathname) == "" <==>
      forall k :: 0 <= k < |WhiteList| ==> !Includes(pathname, WhiteList[k].path)
    ensures forall i :: LastMatching(WhiteList, pathname, i) ==> LastMatch(WhiteList, pathname) == WhiteList[i].name
  {
    LastMatchEmpty(WhiteList, pathname);
    forall i | LastMatching(WhiteList, pathname, i)
      ensures LastMatch(WhiteList, pathname) == WhiteList[i].name
    {
      LastMatchLast(WhiteList, pathname, i);
    }
  }

  /** The header height: 64px exactly when the pathname contains "edu". */
  function Height(pathname: string): (h: string)
    ensures h == "64px" <==> Includes(pathname, "edu")
    ensures h == "40px" <==> !Includes(pathname, "edu")
  {
    if IndexOf(pathname, "edu") != -1 then "64px" else "40px"
  }

  /** The applicant list page is tall and titled "신청자 목록". */
  lemma MatchingPageHeader()
    ensures Height("/edu/matching") == "64px"
    ensures LastMatch(WhiteList, "/edu/matching") == "신청자 목록"
    ensures BackButton("/edu/matching") && !Logo("/edu/matching")
  {
    IncludesWhole("/edu/matching");
    assert OccursAt("/edu/matching", "edu", 1);
    IncludesIff("/edu/matching", "edu");
  }
}
