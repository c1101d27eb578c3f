/** The course list on the home page, narrowed by a search text and by an
    address filter and a category filter chosen from sheets. */
module HomeFilter {
  import opened Common

  /** The fields of a listed course the filter reads. */
  datatype Edu = Edu(title: string, address: string, category: string)

  /** The `filteredEdus` predicate: the title contains the search text ignoring
      case; address and category filters are off when empty and are matched
      case-sensitively otherwise. */
  predicate Keep(e: Edu, search: string, address: string, category: string) {
    && Includes(Lower(e.title), Lower(search))
    && (address == "" || Includes(e.address, address))
    && (category == "" || Includes(e.category, category))
  }

  /** `edus.filter(...)`. */
  function Filtered(edus: seq<Edu>, search: string, address: string, category: string): (r: seq<Edu>)
    ensures |r| <= |edus|
    ensures forall e :: e in r ==> e in edus && Keep(e, search, address, category)
    ensures forall e :: e in edus && Keep(e, search, address, category) ==> e in r
  {
    if edus == [] then []
    else
      var rest := Filtered(edus[1..], search, address, category);
      assert forall e :: e in edus ==> e == edus[0] || e in edus[1..];
      if Keep(edus[0], search, address, category) then [edus[0]] + rest else rest
  }

  /** The filter keeps every kept course as often as the list holds it, and no
      other course. */
  lemma {:induction false} FilteredCounts(edus: seq<Edu>, search: string, address: string, category: string)
    ensures forall e :: multiset(Filtered(edus, search, address, category))[e] ==
                        if Keep(e, search, address, category) then multiset(edus)[e] else 0
  {
    if edus != [] {
      FilteredCounts(edus[1..], search, address, category);
      assert edus == [edus[0]] + edus[1..];
    }
  }

  /** `idx` picks out `r` from `s` at strictly increasing positions. */
  predicate PicksOut(idx: seq<int>, r: seq<Edu>, s: seq<Edu>) {
    && |idx| == |r|
    && (forall k :: 0 <= k < |idx| ==> 0 <= idx[k] < |s| && r[k] == s[idx[k]])
    && (forall k, l :: 0 <= k < l < |idx| ==> idx[k] < idx[l])
  }

  /** The result is an order-preserving sub-list of the list. */
  lemma {:induction false} FilteredIsSublist(edus: seq<Edu>, search: string, address: string, category: string)
    returns (idx: seq<int>)
    ensures PicksOut(idx, Filtered(edus, search, address, category), edus)
  {
    if edus == [] {
      idx := [];
    } else {
      var rest := Filtered(edus[1..], search, address, category);
      var tail := FilteredIsSublist(edus[1..], search, address, category);
      var shifted := seq(|tail|, k requires 0 <= k < |tail| => tail[k] + 1);
      assert PicksOut(shifted, rest, edus) by {
        forall k | 0 <= k < |shifted| ensures 0 <= shifted[k] < |edus| && rest[k] == edus[shifted[k]] {
          assert edus[1..][tail[k]] == edus[tail[k] + 1];
        }
      }
      if Keep(edus[0], search, address, category) {
        idx := [0] + shifted;
        assert Filtered(edus, search, address, category) == [edus[0]] + rest;
        AddFirst(shifted, rest, edus);
      } else {
        idx := shifted;
        assert Filtered(edus, search, address, category) == rest;
      }
    }
  }

  /** Picking the first element in front of a pick from later positions. */
  lemma AddFirst(idx: seq<int>, r: seq<Edu>, s: seq<Edu>)
    requires s != [] && PicksOut(idx, r, s)
    requires forall k :: 0 <= k < |idx| ==> idx[k] > 0
    ensures PicksOut([0] + idx, [s[0]] + r, s)
  {
    var idx' := [0] + idx;
    var r' := [s[0]] + r;
    forall k | 0 <= k < |idx'| ensures 0 <= idx'[k] < |s| && r'[k] == s[idx'[k]] {
      if k > 0 {
        assert idx'[k] == idx[k - 1] && r'[k] == r[k - 1];
      }
    }
    forall k, l | 0 <= k < l < |idx'| ensures idx'[k] < idx'[l] {
      if k > 0 {
        assert idx'[k] == idx[k - 1] && idx'[l] == idx[l - 1];
      }
    }
  }

  /** With no search text and no filters every course is listed. */
  lemma {:induction false} NoFilterKeepsAll(edus: seq<Edu>)
    ensures Filtered(edus, "", "", "") == edus
  {
    if edus != [] {
      assert Lower("") == "";
      IncludesWhole(Lower(edus[0].title));
      NoFilterKeepsAll(edus[1..]);
    }
  }

  /** Searching ignores case, the address filter does not. */
  lemma CaseRules()
    ensures Keep(Edu("Python", "Seoul", "IT"), "PYTHON", "", "")
    ensures !Keep(Edu("Python", "Seoul", "IT"), "", "seoul", "")
  {
    assert Lower("PYTHON") == Lower("Python");
    IncludesWhole(Lower("Python"));
    assert !OccursAt("Seoul", "seoul", 0) by {
      assert "Seoul"[0..5][0] != "seoul"[0];
    }
    IncludesIff("Seoul", "seoul");
  }
}
