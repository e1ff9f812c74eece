/**
 Leftmost-first regular expression matching, as Go's regexp package defines it: of all matches at the
 leftmost position, the one a backtracking search would find first.

 `Ends` lists every way an expression can match from a position, by where the match ends, in the order
 the search tries them.  The lemmas say what the ends of an expression can be (`EndsOver`), which ends it
 is sure to have (`EatsEnds`, `PlusEats`), and which comes first (`StarHead`, `PlusHead`).
 */
module Regex {
  datatype Class = Range(lo: char, hi: char) | Not(c: char) | Or(a: Class, b: Class)

  predicate In(c: char, k: Class) {
    match k
    case Range(lo, hi) => lo <= c <= hi
    case Not(x) => c != x
    case Or(a, b) => In(c, a) || In(c, b)
  }

  datatype Re = Char(k: Class) | Cat(a: Re, b: Re) | Alt(a: Re, b: Re) | Opt(r: Re) | Star(r: Re) | Plus(r: Re)

  predicate Bounded(js: seq<nat>, lo: nat, hi: nat) {
    forall n :: 0 <= n < |js| ==> lo <= js[n] <= hi
  }

  /** Greedy operators try one more repetition first; a repetition that matches nothing ends the loop. */
  function Ends(re: Re, s: string, i: nat): (js: seq<nat>)
    requires i <= |s|
    ensures Bounded(js, i, |s|)
    decreases re, 0, 0
  {
    match re
    case Char(k) => if i < |s| && In(s[i], k) then [i + 1] else []
    case Cat(a, b) => EndsFrom(b, s, i, Ends(a, s, i))
    case Alt(a, b) => Ends(a, s, i) + Ends(b, s, i)
    case Opt(r) => Ends(r, s, i) + [i]
    case Star(r) => StarEnds(r, s, i)
    case Plus(r) => PlusFrom(r, s, i, Ends(r, s, i))
  }

  /** One after the other: continue with `re` from each position in turn. */
  function EndsFrom(re: Re, s: string, i: nat, js: seq<nat>): (r: seq<nat>)
    requires Bounded(js, i, |s|)
    ensures Bounded(r, i, |s|)
    decreases re, 1, |js|
  {
    if js == [] then [] else Ends(re, s, js[0]) + EndsFrom(re, s, i, js[1..])
  }

  function StarEnds(re: Re, s: string, i: nat): (js: seq<nat>)
    requires i <= |s|
    ensures Bounded(js, i, |s|)
    decreases re, 2, |s| - i
  {
    StarFrom(re, s, i, Ends(re, s, i)) + [i]
  }

  function StarFrom(re: Re, s: string, i: nat, js: seq<nat>): (r: seq<nat>)
    requires i <= |s| && Bounded(js, i, |s|)
    ensures Bounded(r, i, |s|)
    decreases re, 2, |s| - i, |js|
  {
    if js == [] then []
    else (if js[0] > i then StarEnds(re, s, js[0]) else []) + StarFrom(re, s, i, js[1..])
  }

  function PlusFrom(re: Re, s: string, i: nat, js: seq<nat>): (r: seq<nat>)
    requires i <= |s| && Bounded(js, i, |s|)
    ensures Bounded(r, i, |s|)
    decreases re, 3, |js|
  {
    if js == [] then []
    else (if js[0] > i then StarEnds(re, s, js[0]) else [i]) + PlusFrom(re, s, i, js[1..])
  }

  // ------------------------------------------------------------------ what a match consists of

  predicate Over(s: string, i: nat, j: nat, k: Class)
    requires i <= j <= |s|
  {
    forall x :: i <= x < j ==> In(s[x], k)
  }

  /** Every character the expression can match belongs to the class. */
  ghost predicate Uses(re: Re, k: Class) {
    match re
    case Char(c) => forall x :: In(x, c) ==> In(x, k)
    case Cat(a, b) => Uses(a, k) && Uses(b, k)
    case Alt(a, b) => Uses(a, k) && Uses(b, k)
    case Opt(r) => Uses(r, k)
    case Star(r) => Uses(r, k)
    case Plus(r) => Uses(r, k)
  }

  ghost predicate AllOver(s: string, i: nat, js: seq<nat>, k: Class)
    requires Bounded(js, i, |s|)
  {
    forall n :: 0 <= n < |js| ==> Over(s, i, js[n], k)
  }

  lemma {:induction false} EndsOver(re: Re, s: string, i: nat, k: Class)
    requires i <= |s| && Uses(re, k)
    ensures AllOver(s, i, Ends(re, s, i), k)
    decreases re, 0, 0
  {
    match re
    case Char(c) =>
    case Cat(a, b) =>
      EndsOver(a, s, i, k);
      EndsFromOver(b, s, i, Ends(a, s, i), k);
    case Alt(a, b) =>
      EndsOver(a, s, i, k);
      EndsOver(b, s, i, k);
    case Opt(r) => EndsOver(r, s, i, k);
    case Star(r) => StarOver(r, s, i, k);
    case Plus(r) =>
      EndsOver(r, s, i, k);
      PlusFromOver(r, s, i, Ends(r, s, i), k);
  }

  lemma {:induction false} EndsFromOver(re: Re, s: string, i: nat, js: seq<nat>, k: Class)
    requires Uses(re, k) && Bounded(js, i, |s|) && AllOver(s, i, js, k)
    ensures AllOver(s, i, EndsFrom(re, s, i, js), k)
    decreases re, 1, |js|
  {
    if js != [] {
      EndsOver(re, s, js[0], k);
      EndsFromOver(re, s, i, js[1..], k);
      assert Over(s, i, js[0], k);
    }
  }

  lemma {:induction false} StarOver(re: Re, s: string, i: nat, k: Class)
    requires i <= |s| && Uses(re, k)
    ensures AllOver(s, i, StarEnds(re, s, i), k)
    decreases re, 2, |s| - i
  {
    EndsOver(re, s, i, k);
    StarFromOver(re, s, i, Ends(re, s, i), k);
  }

  lemma {:induction false} StarFromOver(re: Re, s: string, i: nat, js: seq<nat>, k: Class)
    requires i <= |s| && Uses(re, k) && Bounded(js, i, |s|) && AllOver(s, i, js, k)
    ensures AllOver(s, i, StarFrom(re, s, i, js), k)
    decreases re, 2, |s| - i, |js|
  {
    if js != [] {
      assert Over(s, i, js[0], k);
      if js[0] > i { StarOver(re, s, js[0], k); }
      StarFromOver(re, s, i, js[1..], k);
    }
  }

  lemma {:induction false} PlusFromOver(re: Re, s: string, i: nat, js: seq<nat>, k: Class)
    requires i <= |s| && Uses(re, k) && Bounded(js, i, |s|) && AllOver(s, i, js, k)
    ensures AllOver(s, i, PlusFrom(re, s, i, js), k)
    decreases re, 3, |js|
  {
    if js != [] {
      assert Over(s, i, js[0], k);
      if js[0] > i { StarOver(re, s, js[0], k); }
      PlusFromOver(re, s, i, js[1..], k);
    }
  }

  // ------------------------------------------------------------------ what can be matched

  predicate Nullable(re: Re) {
    match re
    case Char(_) => false
    case Cat(a, b) => Nullable(a) && Nullable(b)
    case Alt(a, b) => Nullable(a) || Nullable(b)
    case Opt(_) => true
    case Star(_) => true
    case Plus(r) => Nullable(r)
  }

  /** The expression can match the one character `c`. */
  predicate Eats(re: Re, c: char) {
    match re
    case Char(k) => In(c, k)
    case Cat(a, b) => (Eats(a, c) && Nullable(b)) || (Nullable(a) && Eats(b, c))
    case Alt(a, b) => Eats(a, c) || Eats(b, c)
    case Opt(r) => Eats(r, c)
    case Star(r) => Eats(r, c)
    case Plus(r) => Eats(r, c)
  }

  lemma {:induction false} EndsFromHas(re: Re, s: string, i: nat, js: seq<nat>, m: nat, j: nat)
    requires Bounded(js, i, |s|) && m in js && j in Ends(re, s, m)
    ensures j in EndsFrom(re, s, i, js)
    decreases |js|
  {
    if js[0] != m { EndsFromHas(re, s, i, js[1..], m, j); }
  }

  lemma {:induction false} EndsFromOnly(re: Re, s: string, i: nat, js: seq<nat>, j: nat)
    requires Bounded(js, i, |s|) && j in EndsFrom(re, s, i, js)
    ensures exists m :: m in js && j in Ends(re, s, m)
    decreases |js|
  {
    if j !in Ends(re, s, js[0]) {
      EndsFromOnly(re, s, i, js[1..], j);
      var m :| m in js[1..] && j in Ends(re, s, m);
      assert m in js;
    } else {
      assert js[0] in js;
    }
  }

  lemma {:induction false} StarFromHas(re: Re, s: string, i: nat, js: seq<nat>, m: nat, j: nat)
    requires i <= |s| && Bounded(js, i, |s|) && m in js && m > i && j in StarEnds(re, s, m)
    ensures j in StarFrom(re, s, i, js)
    decreases |js|
  {
    if js[0] != m { StarFromHas(re, s, i, js[1..], m, j); }
  }

  lemma {:induction false} PlusFromHas(re: Re, s: string, i: nat, js: seq<nat>, m: nat, j: nat)
    requires i <= |s| && Bounded(js, i, |s|) && m in js
    requires if m > i then j in StarEnds(re, s, m) else j == i
    ensures j in PlusFrom(re, s, i, js)
    decreases |js|
  {
    if js[0] != m { PlusFromHas(re, s, i, js[1..], m, j); }
  }

  lemma {:induction false} NullableEnds(re: Re, s: string, i: nat)
    requires i <= |s| && Nullable(re)
    ensures i in Ends(re, s, i)
  {
    match re
    case Cat(a, b) =>
      NullableEnds(a, s, i);
      NullableEnds(b, s, i);
      EndsFromHas(b, s, i, Ends(a, s, i), i, i);
    case Alt(a, b) => if Nullable(a) { NullableEnds(a, s, i); } else { NullableEnds(b, s, i); }
    case Opt(r) =>
    case Star(r) =>
    case Plus(r) =>
      NullableEnds(r, s, i);
      PlusFromHas(r, s, i, Ends(r, s, i), i, i);
  }

  lemma {:induction false} EatsEnds(re: Re, s: string, i: nat)
    requires i < |s| && Eats(re, s[i])
    ensures i + 1 in Ends(re, s, i)
  {
    match re
    case Char(k) =>
    case Cat(a, b) =>
      if Eats(a, s[i]) && Nullable(b) {
        EatsEnds(a, s, i);
        NullableEnds(b, s, i + 1);
        EndsFromHas(b, s, i, Ends(a, s, i), i + 1, i + 1);
      } else {
        NullableEnds(a, s, i);
        EatsEnds(b, s, i);
        EndsFromHas(b, s, i, Ends(a, s, i), i, i + 1);
      }
    case Alt(a, b) => if Eats(a, s[i]) { EatsEnds(a, s, i); } else { EatsEnds(b, s, i); }
    case Opt(r) => EatsEnds(r, s, i);
    case Star(r) =>
      EatsEnds(r, s, i);
      StarFromHas(r, s, i, Ends(r, s, i), i + 1, i + 1);
    case Plus(r) =>
      EatsEnds(r, s, i);
      PlusFromHas(r, s, i, Ends(r, s, i), i + 1, i + 1);
  }

  lemma {:induction false} StarEats(re: Re, s: string, i: nat, j: nat)
    requires i <= j <= |s| && forall x :: i <= x < j ==> Eats(re, s[x])
    ensures j in StarEnds(re, s, i)
    decreases j - i
  {
    if i < j {
      EatsEnds(re, s, i);
      StarEats(re, s, i + 1, j);
      StarFromHas(re, s, i, Ends(re, s, i), i + 1, j);
    }
  }

  lemma {:induction false} PlusEatsSome(re: Re, s: string, i: nat, j: nat)
    requires i < j <= |s| && forall x :: i <= x < j ==> Eats(re, s[x])
    ensures j in PlusFrom(re, s, i, Ends(re, s, i))
  {
    EatsEnds(re, s, i);
    StarEats(re, s, i + 1, j);
    PlusFromHas(re, s, i, Ends(re, s, i), i + 1, j);
  }

  lemma {:induction false} PlusEatsNone(re: Re, s: string, i: nat)
    requires i <= |s| && Nullable(re)
    ensures i in PlusFrom(re, s, i, Ends(re, s, i))
  {
    NullableEnds(re, s, i);
    PlusFromHas(re, s, i, Ends(re, s, i), i, i);
  }

  lemma {:induction false} PlusEats(re: Re, s: string, i: nat, j: nat)
    requires i <= j <= |s| && Nullable(re) && forall x :: i <= x < j ==> Eats(re, s[x])
    ensures j in Ends(Plus(re), s, i)
  {
    if i < j { PlusEatsSome(re, s, i, j); } else { PlusEatsNone(re, s, i); }
  }

  // ------------------------------------------------------------------ runs

  /** The end of the longest run of a class. */
  function RunEnd(s: string, i: nat, k: Class): (e: nat)
    requires i <= |s|
    ensures i <= e <= |s| && Over(s, i, e, k) && (e < |s| ==> !In(s[e], k))
    decreases |s| - i
  {
    if i < |s| && In(s[i], k) then RunEnd(s, i + 1, k) else i
  }

  lemma {:induction false} RunEndUnique(s: string, i: nat, k: Class, e: nat)
    requires i <= e <= |s| && Over(s, i, e, k) && (e < |s| ==> !In(s[e], k))
    ensures RunEnd(s, i, k) == e
    decreases e - i
  {
    if i < e { RunEndUnique(s, i + 1, k, e); }
  }

  /** A greedy class repetition prefers the whole run. */
  lemma {:induction false} StarHead(s: string, i: nat, k: Class)
    requires i <= |s|
    ensures StarEnds(Char(k), s, i) != [] && StarEnds(Char(k), s, i)[0] == RunEnd(s, i, k)
    decreases |s| - i
  {
    var js := Ends(Char(k), s, i);
    if i < |s| && In(s[i], k) {
      StarHead(s, i + 1, k);
      assert js == [i + 1] && js[1..] == [];
      assert StarFrom(Char(k), s, i, js) == StarEnds(Char(k), s, i + 1) + [];
    } else {
      assert js == [];
    }
  }

  lemma PlusHead(s: string, i: nat, k: Class)
    requires i <= |s|
    ensures var js := Ends(Plus(Char(k)), s, i);
            if i < |s| && In(s[i], k) then js != [] && js[0] == RunEnd(s, i, k) else js == []
  {
    var js := Ends(Char(k), s, i);
    if i < |s| && In(s[i], k) {
      StarHead(s, i + 1, k);
      assert js == [i + 1] && js[1..] == [];
      assert PlusFrom(Char(k), s, i, js) == StarEnds(Char(k), s, i + 1) + [];
    } else {
      assert js == [];
    }
  }
}
