/** The "register a course" page: when its button is enabled, how a click on a
    field chip changes the selected fields, and what a submit sends. */
module EduRegister {
  import opened Common
  import opened Posts

  /** The six inputs of the form, as the strings their elements hold. */
  datatype Form = Form(title: string, subtitle: string, content: string,
                       fromDate: string, toDate: string, place: string)

  /** `checkActivate`: at least one field selected and no input empty. */
  predicate CheckActivate(selected: seq<string>, f: Form) {
    |selected| > 0 && f.title != [] && f.subtitle != [] && f.content != []
    && f.fromDate != [] && f.toDate != [] && f.place != []
  }

  /** `list.filter((value) => value !== x)`. */
  function RemoveAll(s: seq<string>, x: string): (r: seq<string>)
    ensures x !in r
    ensures forall y :: y != x ==> multiset(r)[y] == multiset(s)[y]
    ensures forall y :: y in r ==> y in s
  {
    if s == [] then []
    else
      var rest := RemoveAll(s[1..], x);
      assert s == [s[0]] + s[1..];
      if s[0] == x then rest else [s[0]] + rest
  }

  /** `handleSelectedFields(field)`: a selected field is removed (every copy of it),
      an unselected one is appended. */
  /** After a click the field is selected exactly when it was not before, and no
      other field changes its number of occurrences. */
  function Toggle(selected: seq<string>, field: string): (r: seq<string>)
    ensures field in r <==> field !in selected
    ensures forall y :: y != field ==> multiset(r)[y] == multiset(selected)[y]
  {
    if field in selected then RemoveAll(selected, field) else selected + [field]
  }

  /** Filtering keeps a duplicate-free list duplicate-free. */
  lemma {:induction false} RemoveAllNoDup(s: seq<string>, x: string)
    requires NoDup(s)
    ensures NoDup(RemoveAll(s, x))
  {
    if s != [] {
      var rest := RemoveAll(s[1..], x);
      assert NoDup(s[1..]) by {
        forall i, j | 0 <= i < j < |s[1..]| ensures s[1..][i] != s[1..][j] {
          assert s[1..][i] == s[i + 1] && s[1..][j] == s[j + 1];
        }
      }
      RemoveAllNoDup(s[1..], x);
      if s[0] != x {
        assert s[0] !in s[1..];
        assert s[0] !in rest;
        forall i, j | 0 <= i < j < |[s[0]] + rest| ensures ([s[0]] + rest)[i] != ([s[0]] + rest)[j] {
          if i > 0 {
            assert ([s[0]] + rest)[i] == rest[i - 1] && ([s[0]] + rest)[j] == rest[j - 1];
          }
        }
      }
    }
  }

  /** Starting from no selection, any sequence of clicks leaves a list without
      duplicates: a click never adds a duplicate. */
  lemma ToggleNoDup(selected: seq<string>, field: string)
    requires NoDup(selected)
    ensures NoDup(Toggle(selected, field))
  {
    if field in selected {
      RemoveAllNoDup(selected, field);
    } else {
      NoDupAppend(selected, field);
    }
  }

  /** Removing an element that is absent changes nothing. */
  lemma {:induction false} RemoveAbsent(s: seq<string>, x: string)
    requires x !in s
    ensures RemoveAll(s, x) == s
  {
    if s != [] {
      assert x !in s[1..];
      RemoveAbsent(s[1..], x);
    }
  }

  /** Clicking an unselected field twice restores the original list. */
  lemma ToggleTwice(selected: seq<string>, field: string)
    requires field !in selected
    ensures Toggle(Toggle(selected, field), field) == selected
  {
    var s := selected + [field];
    assert field in s;
    RemoveAppended(selected, field);
  }

  lemma {:induction false} RemoveAppended(s: seq<string>, x: string)
    requires x !in s
    ensures RemoveAll(s + [x], x) == s
  {
    if s == [] {
      assert [x][1..] == [];
    } else {
      assert (s + [x])[1..] == s[1..] + [x];
      assert x !in s[1..];
      RemoveAppended(s[1..], x);
    }
  }

  /** What a click on submit does: the body posted (None when nothing was posted),
      whether the failure alert appeared, and where the page went. */
  datatype SubmitResult = SubmitResult(sent: Option<NewPostBody>, alerted: bool, navigated: Option<string>)

  /** `submitEduInfo`. `iso` is `new Date(value).toISOString()`, None when the
      date is invalid and `toISOString` throws (the catch then swallows it);
      `flag` is what `registerEduForm` reports. */
  function Submit(selected: seq<string>, f: Form, iso: string -> Option<string>, flag: string): (r: SubmitResult)
    ensures r.sent.None? <==> iso(f.fromDate).None?
    ensures r.sent.None? ==> !r.alerted && r.navigated.None?
    ensures r.sent.Some? ==> r.navigated == Some("/home") && (r.alerted <==> flag == "failed")
  {
    match iso(f.fromDate)
    case None => SubmitResult(None, false, None)
    case Some(d) =>
      SubmitResult(Some(NewPostBody(f.title, f.subtitle, Join(selected, ","), f.content, f.place, d)),
                   flag == "failed", Some("/home"))
  }

  /** The body carries the inputs under the server's field names, the selected
      fields joined by commas as the category and the ISO start date as `teachAt`;
      the end date takes no part. */
  lemma SubmitBody(selected: seq<string>, f: Form, iso: string -> Option<string>, flag: string, toDate: string)
    requires iso(f.fromDate).Some?
    ensures var b := Submit(selected, f, iso, flag).sent.value;
      && b.title == f.title && b.subtitle == f.subtitle && b.description == f.content
      && b.address == f.place && b.teachAt == iso(f.fromDate).value
      && b.category == Join(selected, ",")
    ensures Submit(selected, f.(toDate := toDate), iso, flag) == Submit(selected, f, iso, flag)
  {
  }

  /** A join of non-empty parts is non-empty. */
  lemma JoinNonEmpty(parts: seq<string>, sep: string)
    requires |parts| > 0 && parts[0] != []
    ensures Join(parts, sep) != []
  {
  }

  /** A form the button lets through, with an ISO date, sends a body that passes
      the server's required-fields check. */
  lemma EnabledFormPassesServerCheck(selected: seq<string>, f: Form, iso: string -> Option<string>, flag: string)
    requires CheckActivate(selected, f) && selected[0] != []
    requires iso(f.fromDate).Some? && iso(f.fromDate).value != []
    ensures FieldsPresent(Submit(selected, f, iso, flag).sent.value)
  {
    JoinNonEmpty(selected, ",");
  }
}
