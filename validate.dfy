/** The client-side input checks of the sign-up flow (FE/src/utils/validate.js):
    the general e-mail pattern and the four-digit verification code pattern. */
module Validate {
  import opened Common

  /** A character of the class `[^\s@]`. */
  predicate Plain(c: char) {
    !IsJsSpace(c) && c != '@'
  }

  predicate AllPlain(p: string) {
    forall k :: 0 <= k < |p| ==> Plain(p[k])
  }

  /** `/^[^\s@]+@[^\s@]+\.[^\s@]+$/.test(s)`: the string is `local@domain.tld`
      where `@` sits at `i`, the chosen `.` at `j`, and the three pieces are
      non-empty runs of `[^\s@]`. */
  predicate ValidateEmail(s: string) {
    exists i, j :: 0 <= i < |s| && 0 <= j < |s| && EmailAt(s, i, j)
  }

  predicate EmailAt(s: string, i: int, j: int) {
    0 < i && i + 1 < j && j + 1 < |s| && s[i] == '@' && s[j] == '.' &&
    AllPlain(s[..i]) && AllPlain(s[i + 1..j]) && AllPlain(s[j + 1..])
  }

  /** `/^\d{4}$/.test(s)`: exactly four ASCII digits. */
  predicate ValidateAuthNumber(s: string) {
    |s| == 4 && forall k :: 0 <= k < 4 ==> '0' <= s[k] <= '9'
  }

  /** The e-mail pattern accepts exactly the strings without whitespace that hold
      exactly one `@`, not at the start, with a `.` after it that has at least one
      character on each side. */
  lemma ValidateEmailShape(s: string)
    ensures ValidateEmail(s) <==>
              (forall k :: 0 <= k < |s| ==> !IsJsSpace(s[k])) &&
              exists i :: 0 < i < |s| && s[i] == '@' &&
                (forall k :: 0 <= k < |s| && s[k] == '@' ==> k == i) &&
                exists j :: i + 1 < j < |s| - 1 && s[j] == '.'
  {
    if ValidateEmail(s) {
      var i, j :| 0 <= i < |s| && 0 <= j < |s| && EmailAt(s, i, j);
      assert 0 < i && i + 1 < j && j + 1 < |s|;
      forall k | 0 <= k < |s| ensures !IsJsSpace(s[k]) && (s[k] == '@' ==> k == i) {
        if k < i {
          assert s[..i][k] == s[k];
        } else if i < k < j {
          assert s[i + 1..j][k - i - 1] == s[k];
        } else if j < k {
          assert s[j + 1..][k - j - 1] == s[k];
        }
      }
    }
    if (forall k :: 0 <= k < |s| ==> !IsJsSpace(s[k])) &&
       exists i :: 0 < i < |s| && s[i] == '@' &&
         (forall k :: 0 <= k < |s| && s[k] == '@' ==> k == i) &&
         exists j :: i + 1 < j < |s| - 1 && s[j] == '.'
    {
      var i :| 0 < i < |s| && s[i] == '@' &&
        (forall k :: 0 <= k < |s| && s[k] == '@' ==> k == i) &&
        exists j :: i + 1 < j < |s| - 1 && s[j] == '.';
      var j :| i + 1 < j < |s| - 1 && s[j] == '.';
      assert EmailAt(s, i, j);
    }
  }

  /** Neither pattern trims: a leading or trailing space makes both checks fail. */
  lemma NoTrim(s: string)
    ensures !ValidateEmail(" " + s) && !ValidateEmail(s + " ")
    ensures !ValidateAuthNumber(" " + s) && !ValidateAuthNumber(s + " ")
  {
    ValidateEmailShape(" " + s);
    ValidateEmailShape(s + " ");
    assert (" " + s)[0] == ' ';
    assert (s + " ")[|s|] == ' ';
  }
}
