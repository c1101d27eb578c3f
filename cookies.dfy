/** The browser-cookie helpers of the front end. `document.cookie` is a plain string
    parameter (read) or result (write); `encodeURIComponent` and
    `decodeURIComponent` are the identity in this model. */
module Cookies {
  import opened Common

  /** `kv.split("=")` destructured as `[k, v]`: the key is the text before the first
      `=`, the value the text between the first and the second `=`; with no `=` at
      all the value is `undefined`, which `decodeURIComponent` turns into the string
      "undefined". */
  function PairOf(kv: string): (string, string) {
    var parts := Split(kv, "=");
    (parts[0], if |parts| >= 2 then parts[1] else "undefined")
  }

  /** A pair whose key and value hold no `=` is read back exactly. */
  lemma PairOfKeyValue(k: string, v: string)
    requires '=' !in k && '=' !in v
    ensures PairOf(k + "=" + v) == (k, v)
  {
    assert k + "=" + v == k + ['='] + v;
    SplitCons(k, '=', v);
    SplitNoSep(v, '=');
  }

  /** Whatever follows a second `=` is dropped. */
  lemma PairOfRoundTrip(k: string, v: string, rest: string)
    requires '=' !in k && '=' !in v
    ensures PairOf(k + "=" + v + "=" + rest) == (k, v)
  {
    assert k + "=" + v + "=" + rest == k + ['='] + (v + ['='] + rest);
    SplitCons(k, '=', v + ['='] + rest);
    SplitCons(v, '=', rest);
  }

  /** A piece without `=` is a key whose value is the string "undefined". */
  lemma PairWithoutValue(k: string)
    requires '=' !in k
    ensures PairOf(k) == (k, "undefined")
  {
    SplitNoSep(k, '=');
  }

  /** The pieces of `document.cookie.split("; ")`, each read as a pair. */
  function Pairs(cookie: string): seq<(string, string)> {
    var parts := Split(cookie, "; ");
    seq(|parts|, i requires 0 <= i < |parts| => PairOf(parts[i]))
  }

  /** The accumulator object after `reduce` has visited `ps` left to right: every
      pair assigns its key, so a later pair overwrites an earlier one. */
  function Jar(ps: seq<(string, string)>): map<string, string> {
    if ps == [] then map[]
    else
      var p := ps[|ps| - 1];
      Jar(ps[..|ps| - 1])[p.0 := p.1]
  }

  /** `cookies[name] || null`. */
  function Lookup(jar: map<string, string>, name: string): Option<string> {
    if name in jar && jar[name] != "" then Some(jar[name]) else None
  }

  /** Pair `i` is the last one in `ps` whose key is `name`. */
  predicate LastWithKey(ps: seq<(string, string)>, name: string, i: int) {
    0 <= i < |ps| && ps[i].0 == name
    && forall j :: i < j < |ps| ==> ps[j].0 != name
  }

  /** The jar holds `name` exactly when some pair has that key. */
  lemma {:induction false} JarHasKey(ps: seq<(string, string)>, name: string)
    ensures name in Jar(ps) <==> exists i :: 0 <= i < |ps| && ps[i].0 == name
  {
    if ps != [] {
      var n := |ps| - 1;
      JarHasKey(ps[..n], name);
      if name in Jar(ps) && ps[n].0 != name {
        var i :| 0 <= i < n && ps[..n][i].0 == name;
        assert ps[i].0 == name;
      }
      if name !in Jar(ps) {
        forall i | 0 <= i < |ps| ensures ps[i].0 != name {
          if i < n {
            assert ps[i] == ps[..n][i];
          }
        }
      }
    }
  }

  /** The jar holds the value of the last pair named `name`. */
  lemma {:induction false} JarLastPairWins(ps: seq<(string, string)>, name: string, i: int)
    requires LastWithKey(ps, name, i)
    ensures name in Jar(ps) && Jar(ps)[name] == ps[i].1
  {
    var n := |ps| - 1;
    if i < n {
      assert ps[..n][i] == ps[i];
      assert LastWithKey(ps[..n], name, i);
      JarLastPairWins(ps[..n], name, i);
    }
  }

  /** `getCookie(name)` over the cookie string `cookie`: the reduce loop fills an
      accumulator map pair by pair. */
  method GetCookie(cookie: string, name: string) returns (r: Option<string>)
    ensures r == Lookup(Jar(Pairs(cookie)), name)
  {
    var parts := Split(cookie, "; ");
    ghost var ps := Pairs(cookie);
    assert |ps| == |parts|;
    var acc: map<string, string> := map[];
    var i := 0;
    while i < |parts|
      invariant 0 <= i <= |parts|
      invariant acc == Jar(ps[..i])
    {
      var p := PairOf(parts[i]);
      assert ps[i] == p;
      assert ps[..i + 1][..i] == ps[..i];
      assert Jar(ps[..i + 1]) == Jar(ps[..i])[p.0 := p.1];
      acc := acc[p.0 := p.1];
      i := i + 1;
    }
    assert ps[..i] == ps;
    if name in acc && acc[name] != "" {
      r := Some(acc[name]);
    } else {
      r := None;
    }
  }

  /** `getCookie` gives the value of the last pair named `name` unless that value is
      empty, and null when no pair has that name. */
  lemma GetCookieMeaning(cookie: string, name: string)
    ensures var ps := Pairs(cookie);
      && (forall i :: LastWithKey(ps, name, i) ==>
            Lookup(Jar(ps), name) == (if ps[i].1 == "" then None else Some(ps[i].1)))
      && ((forall i :: 0 <= i < |ps| ==> ps[i].0 != name) ==> Lookup(Jar(ps), name) == None)
  {
    var ps := Pairs(cookie);
    JarHasKey(ps, name);
    forall i | LastWithKey(ps, name, i)
      ensures Lookup(Jar(ps), name) == (if ps[i].1 == "" then None else Some(ps[i].1))
    {
      JarLastPairWins(ps, name, i);
    }
  }

  /** Pieces that hold no `;`, joined by `; `, are read back as their own pairs. */
  lemma PairsOfJoin(parts: seq<string>)
    requires |parts| >= 1 && forall i :: 0 <= i < |parts| ==> ';' !in parts[i]
    ensures var ps := Pairs(Join(parts, "; "));
      |ps| == |parts| && forall i :: 0 <= i < |ps| ==> ps[i] == PairOf(parts[i])
  {
    SplitJoin(parts, "; ");
  }

  /** In a cookie string made of `; `-separated pieces that hold no `;`, a last
      piece `k=v` makes `getCookie(k)` read `v`, overwriting every earlier pair
      named `k`. */
  lemma GetCookieLastSet(pieces: seq<string>, k: string, v: string)
    requires forall i :: 0 <= i < |pieces| ==> ';' !in pieces[i]
    requires '=' !in k && '=' !in v && ';' !in k && ';' !in v && v != ""
    ensures Lookup(Jar(Pairs(Join(pieces + [k + "=" + v], "; "))), k) == Some(v)
  {
    var kv := k + "=" + v;
    var all := pieces + [kv];
    FreeAppend(pieces, kv);
    PairsOfJoin(all);
    PairOfKeyValue(k, v);
    LastPairLookup(Pairs(Join(all, "; ")), k, v);
  }

  lemma FreeAppend(pieces: seq<string>, kv: string)
    requires forall i :: 0 <= i < |pieces| ==> ';' !in pieces[i]
    requires ';' !in kv
    ensures forall i :: 0 <= i < |pieces + [kv]| ==> ';' !in (pieces + [kv])[i]
  {
  }

  /** A last pair (k, v) with a non-empty v is what `getCookie(k)` reads. */
  lemma LastPairLookup(ps: seq<(string, string)>, k: string, v: string)
    requires |ps| >= 1 && ps[|ps| - 1] == (k, v) && v != ""
    ensures Lookup(Jar(ps), k) == Some(v)
  {
    assert LastWithKey(ps, k, |ps| - 1);
    JarLastPairWins(ps, k, |ps| - 1);
  }

  /** The `expires` argument of `setCookie`: a number of seconds from now, a `Date`
      given by its milliseconds since the epoch, or anything else. */
  datatype Expiry = Seconds(seconds: int) | DateValue(ms: int) | NotAnExpiry

  /** `setCookie(name, value, expires, path)`: None stands for the `Error` thrown
      when `expires` is neither a number nor a Date. `nowMs` is the clock and
      `utc` is `Date.prototype.toUTCString`; a missing path defaults to "/". */
  function SetCookie(name: string, value: string, expires: Expiry, path: Option<string>,
                     nowMs: int, utc: int -> string): (r: Option<string>)
    ensures r.None? <==> expires.NotAnExpiry?
  {
    var exp :=
      match expires
      case Seconds(s) => Some(utc(nowMs + s * 1000))
      case DateValue(ms) => Some(utc(ms))
      case NotAnExpiry => None;
    if exp.None? then None
    else Some(Join([name + "=" + value, "expires=" + exp.value,
                    "path=" + (if path.Some? then path.value else "/"),
                    "SameSite=Strict", "Secure"], "; "))
  }

  /** A cookie written by `setCookie` cuts back into its five attributes, the first of
      which reads back as the pair (name, value); the expiry is the clock plus the
      given seconds, or the given Date. */
  lemma SetCookieParts(name: string, value: string, expires: Expiry, path: Option<string>,
                       nowMs: int, utc: int -> string)
    requires !expires.NotAnExpiry?
    requires ';' !in name && ';' !in value && '=' !in name && '=' !in value
    requires path.Some? ==> ';' !in path.value
    requires var e := if expires.Seconds? then nowMs + expires.seconds * 1000 else expires.ms; ';' !in utc(e)
    ensures var e := if expires.Seconds? then nowMs + expires.seconds * 1000 else expires.ms;
      var p := if path.Some? then path.value else "/";
      var parts := Split(SetCookie(name, value, expires, path, nowMs, utc).value, "; ");
      && parts == [name + "=" + value, "expires=" + utc(e), "path=" + p, "SameSite=Strict", "Secure"]
      && PairOf(parts[0]) == (name, value)
  {
    var e := if expires.Seconds? then nowMs + expires.seconds * 1000 else expires.ms;
    var p := if path.Some? then path.value else "/";
    var parts := [name + "=" + value, "expires=" + utc(e), "path=" + p, "SameSite=Strict", "Secure"];
    assert SetCookie(name, value, expires, path, nowMs, utc).value == Join(parts, "; ");
    assert ';' !in parts[0] && ';' !in parts[1] && ';' !in parts[2];
    assert ';' !in parts[3] && ';' !in parts[4];
    SplitJoin(parts, "; ");
    PairOfKeyValue(name, value);
  }

  /** `deleteCookie(name, path)`: an empty value with an expiry at the epoch. */
  function DeleteCookie(name: string, path: Option<string>): string {
    name + "=" + "; " + EpochExpiry + "; " + "path=" + (if path.Some? then path.value else "/")
  }

  const EpochExpiry := "expires=Thu, 01 Jan 1970 00:00:00 GMT"

  lemma EpochExpiryFree()
    ensures ';' !in EpochExpiry
  {
  }

  lemma Join3(a: string, b: string, c: string, sep: string)
    ensures Join([a, b, c], sep) == a + sep + (b + sep + c)
  {
    assert [a, b, c][1..] == [b, c];
    assert [b, c][1..] == [c];
    assert Join([b, c], sep) == b + sep + c;
  }

  /** The deleting cookie cuts into three attributes and its pair has an empty value,
      which `getCookie` reports as null. */
  lemma DeleteCookieParts(name: string, path: Option<string>)
    requires ';' !in name && '=' !in name
    requires path.Some? ==> ';' !in path.value
    ensures var p := if path.Some? then path.value else "/";
      var parts := Split(DeleteCookie(name, path), "; ");
      && parts == [name + "=", EpochExpiry, "path=" + p]
      && PairOf(parts[0]) == (name, "")
      && Lookup(Jar([PairOf(parts[0])]), name) == None
  {
    var p := if path.Some? then path.value else "/";
    var parts := [name + "=", EpochExpiry, "path=" + p];
    Join3(parts[0], parts[1], parts[2], "; ");
    assert DeleteCookie(name, path) == parts[0] + "; " + (parts[1] + "; " + parts[2]);
    EpochExpiryFree();
    assert ';' !in parts[0] && ';' !in parts[2];
    SplitJoin(parts, "; ");
    PairOfKeyValue(name, "");
    assert name + "=" + "" == name + "=";
  }
}
