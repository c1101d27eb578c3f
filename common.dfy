/** Values and string operations shared by every part of the model: an Option type,
    JavaScript's `\s` character class, `indexOf`/`includes`, `split` with a string
    separator, `join`, ASCII lower-casing and duplicate-freedom of sequences. */
module Common {

  datatype Option<+T> = None | Some(value: T)

  /** JavaScript truthiness of an optional string: present and non-empty. */
  predicate Truthy(s: Option<string>) {
    s.Some? && s.value != []
  }

  /** The characters matched by `\s` in a JavaScript regular expression. */
  predicate IsJsSpace(c: char) {
    || c == ' ' || c == '\t' || c == '\n' || c == '\r' || c == '\U{0B}' || c == '\U{0C}'
    || c == '\U{A0}' || c == '\U{1680}' || ('\U{2000}' <= c <= '\U{200A}')
    || c == '\U{2028}' || c == '\U{2029}' || c == '\U{202F}' || c == '\U{205F}'
    || c == '\U{3000}' || c == '\U{FEFF}'
  }

  /** `sub` occurs in `s` starting at index `i`. */
  predicate OccursAt(s: string, sub: string, i: nat) {
    i + |sub| <= |s| && s[i..i + |sub|] == sub
  }

  /** The first index at or after `i` where `sub` occurs, or -1. */
  function IndexFrom(s: string, sub: string, i: nat): (r: int)
    requires i <= |s|
    decreases |s| - i
    ensures r == -1 || (i <= r <= |s| && OccursAt(s, sub, r))
    ensures r == -1 ==> forall k :: i <= k <= |s| ==> !OccursAt(s, sub, k)
    ensures r != -1 ==> forall k :: i <= k < r ==> !OccursAt(s, sub, k)
  {
    if OccursAt(s, sub, i) then i
    else if i == |s| then -1
    else IndexFrom(s, sub, i + 1)
  }

  /** JavaScript's `s.indexOf(sub)`. */
  function IndexOf(s: string, sub: string): int {
    IndexFrom(s, sub, 0)
  }

  /** JavaScript's `s.includes(sub)`, i.e. `s.indexOf(sub) !== -1`. */
  predicate Includes(s: string, sub: string) {
    IndexOf(s, sub) != -1
  }

  lemma IncludesIff(s: string, sub: string)
    ensures Includes(s, sub) <==> exists k :: 0 <= k <= |s| && OccursAt(s, sub, k)
  {
    if !Includes(s, sub) {
      assert forall k :: 0 <= k <= |s| ==> !OccursAt(s, sub, k);
    }
  }

  lemma IncludesWhole(s: string)
    ensures Includes(s, s) && Includes(s, [])
  {
    assert OccursAt(s, s, 0);
    assert OccursAt(s, [], 0);
  }

  /** `parts.join(sep)` of JavaScript. */
  function Join(parts: seq<string>, sep: string): string {
    if |parts| == 0 then []
    else if |parts| == 1 then parts[0]
    else parts[0] + sep + Join(parts[1..], sep)
  }

  /** `s.split(sep)` of JavaScript for a non-empty separator: the pieces between
      the non-overlapping occurrences of `sep`, found left to right. */
  function Split(s: string, sep: string): (parts: seq<string>)
    requires sep != []
    decreases |s|
    ensures |parts| >= 1
    ensures Join(parts, sep) == s
    ensures forall p :: p in parts ==> !Includes(p, sep)
  {
    var k := IndexOf(s, sep);
    if k == -1 then [s]
    else
      var head, rest := s[..k], Split(s[k + |sep|..], sep);
      assert s == head + sep + s[k + |sep|..];
      assert !Includes(head, sep) by {
        forall j | 0 <= j <= |head| ensures !OccursAt(head, sep, j) {
          if OccursAt(head, sep, j) {
            assert s[j..j + |sep|] == head[j..j + |sep|];
            assert OccursAt(s, sep, j);
          }
        }
        IncludesIff(head, sep);
      }
      [head] + rest
  }

  /** A part that holds no `c` contains no occurrence of `[c] + t`. */
  lemma FreeOfCharHasNoSep(p: string, c: char, sep: string)
    requires sep != [] && sep[0] == c && c !in p
    ensures !Includes(p, sep)
  {
    assert forall k :: 0 <= k <= |p| ==> !OccursAt(p, sep, k);
    IncludesIff(p, sep);
  }

  /** Splitting a joined list gives the list back when no part contains the
      separator's first character. */
  lemma {:induction false} SplitJoin(parts: seq<string>, sep: string)
    requires sep != [] && |parts| >= 1
    requires forall i :: 0 <= i < |parts| ==> sep[0] !in parts[i]
    ensures Split(Join(parts, sep), sep) == parts
  {
    var s := Join(parts, sep);
    var p := parts[0];
    if |parts| == 1 {
      FreeOfCharHasNoSep(p, sep[0], sep);
    } else {
      var tail := Join(parts[1..], sep);
      assert s == p + sep + tail;
      assert OccursAt(s, sep, |p|) by {
        assert s[|p|..|p| + |sep|] == sep;
      }
      assert forall k :: 0 <= k < |p| ==> s[k] == p[k];
      assert IndexOf(s, sep) == |p|;
      assert s[|p| + |sep|..] == tail;
      SplitJoin(parts[1..], sep);
    }
  }

  /** A piece free of the character `c` splits to itself. */
  lemma SplitNoSep(a: string, c: char)
    requires c !in a
    ensures Split(a, [c]) == [a]
  {
    FreeOfCharHasNoSep(a, c, [c]);
  }

  /** Splitting at the first `c`. */
  lemma SplitCons(a: string, c: char, b: string)
    requires c !in a
    ensures Split(a + [c] + b, [c]) == [a] + Split(b, [c])
  {
    var s := a + [c] + b;
    assert OccursAt(s, [c], |a|) by {
      assert s[|a|..|a| + 1] == [c];
    }
    forall k | 0 <= k < |a| ensures !OccursAt(s, [c], k) {
      assert s[k..k + 1][0] == s[k] == a[k];
    }
    assert IndexOf(s, [c]) == |a|;
    assert s[|a| + 1..] == b;
  }

  /** A string that does not include `[c]` holds no `c`. */
  lemma NotIncludesChar(p: string, c: char)
    requires !Includes(p, [c])
    ensures c !in p
  {
    if c in p {
      var k :| 0 <= k < |p| && p[k] == c;
      assert p[k..k + 1] == [c];
      assert OccursAt(p, [c], k);
      IncludesIff(p, [c]);
    }
  }

  /** JavaScript's `toLowerCase` on one character, restricted to ASCII letters. */
  function LowerChar(c: char): char {
    if 'A' <= c <= 'Z' then (c as int + 32) as char else c
  }

  function Lower(s: string): (r: string)
    ensures |r| == |s| && forall i :: 0 <= i < |s| ==> r[i] == LowerChar(s[i])
  {
    seq(|s|, i requires 0 <= i < |s| => LowerChar(s[i]))
  }

  predicate NoDup<T(==)>(s: seq<T>) {
    forall i, j :: 0 <= i < j < |s| ==> s[i] != s[j]
  }

  lemma NoDupAppend<T>(s: seq<T>, x: T)
    requires NoDup(s) && x !in s
    ensures NoDup(s + [x])
  {
  }

  /** The decimal rendering of a natural number, as JavaScript's `String(n)`. */
  function NatToString(n: nat): (r: string)
    ensures |r| >= 1 && forall i :: 0 <= i < |r| ==> '0' <= r[i] <= '9'
  {
    var d := ((n % 10) + '0' as int) as char;
    if n < 10 then [d] else NatToString(n / 10) + [d]
  }
}
