/**
 The string operations the operator uses from Go's standard library: `<`, strings.Split, strings.Join and
 strings.Trim.

 `Less` is the order of strings (`LessIff`), `Split` and `Join` with a one-character separator undo each
 other (`JoinOfSplit`, `SplitOfJoin`), and `Trim` takes one character off both ends (`TrimParts`).
 */

module Strings {

  /** Go's `<` on strings: lexicographic. */
  predicate Less(a: string, b: string) {
    if b == "" then false
    else if a == "" then true
    else a[0] < b[0] || (a[0] == b[0] && Less(a[1..], b[1..]))
  }

  /** They differ at `k` for the first time, and `a` has the smaller character there. */
  predicate SmallerAt(a: string, b: string, k: nat) {
    k < |a| && k < |b| && a[k] < b[k] && forall j :: 0 <= j < k ==> a[j] == b[j]
  }

  lemma SmallerAtTail(a: string, b: string, k: nat)
    requires a != "" && b != "" && a[0] == b[0]
    ensures SmallerAt(a[1..], b[1..], k) <==> SmallerAt(a, b, k + 1)
  {
    if SmallerAt(a, b, k + 1) {
      forall j | 0 <= j < k ensures a[1..][j] == b[1..][j] { assert a[j + 1] == b[j + 1]; }
    }
    if SmallerAt(a[1..], b[1..], k) {
      forall j | 0 <= j < k + 1 ensures a[j] == b[j] {
        if j > 0 { assert a[1..][j - 1] == b[1..][j - 1]; }
      }
    }
  }

  /** The first place where two strings differ decides, and a string comes after what it begins with. */
  lemma {:induction false} LessIff(a: string, b: string)
    ensures Less(a, b) <==> a < b || exists k :: SmallerAt(a, b, k)
    decreases |a|
  {
    if a != "" && b != "" {
      var x, y := a[1..], b[1..];
      LessIff(x, y);
      if a[0] == b[0] {
        assert a < b <==> x < y by { assert a == [a[0]] + x && b == [b[0]] + y; }
        if k: nat :| SmallerAt(x, y, k) { SmallerAtTail(a, b, k); }
        if k: nat :| SmallerAt(a, b, k) {
          assert k != 0;
          SmallerAtTail(a, b, k - 1);
        }
      } else {
        if a[0] < b[0] { assert SmallerAt(a, b, 0); }
        if k: nat :| SmallerAt(a, b, k) { assert k == 0; }
      }
    }
  }

  lemma {:induction false} LessTransitive(a: string, b: string, c: string)
    requires Less(a, b) && Less(b, c)
    ensures Less(a, c)
    decreases |b|
  {
    if a != "" && a[0] == b[0] && b[0] == c[0] {
      LessTransitive(a[1..], b[1..], c[1..]);
    }
  }

  lemma {:induction false} LessAsymmetric(a: string, b: string)
    ensures !(Less(a, b) && Less(b, a))
    decreases |a|
  {
    if a != "" && b != "" {
      LessAsymmetric(a[1..], b[1..]);
    }
  }

  lemma {:induction false} LessTotal(a: string, b: string)
    ensures a == b || Less(a, b) || Less(b, a)
    decreases |a|
  {
    if a != "" && b != "" && a[0] == b[0] {
      LessTotal(a[1..], b[1..]);
      assert a == [a[0]] + a[1..] && b == [b[0]] + b[1..];
    }
  }

  lemma Regroup(a: string, b: string, c: string)
    ensures a + b + c == a + (b + c)
  {
  }

  /** strings.Split with a one-character separator. */
  function Split(s: string, c: char): (r: seq<string>)
    ensures |r| >= 1
  {
    if s == "" then [""]
    else if s[0] == c then [""] + Split(s[1..], c)
    else
      var rest := Split(s[1..], c);
      [[s[0]] + rest[0]] + rest[1..]
  }

  /** strings.Join with a one-character separator. */
  function Join(parts: seq<string>, c: char): string {
    if parts == [] then ""
    else if |parts| == 1 then parts[0]
    else parts[0] + [c] + Join(parts[1..], c)
  }

  /** Join undoes Split. */
  lemma {:induction false} JoinOfSplit(s: string, c: char)
    ensures Join(Split(s, c), c) == s
  {
    if s != "" {
      JoinOfSplit(s[1..], c);
      var rest, parts := Split(s[1..], c), Split(s, c);
      if s[0] == c {
        assert parts[1..] == rest && parts[0] == "";
      } else {
        assert parts[0] == [s[0]] + rest[0] && parts[1..] == rest[1..];
      }
      assert Join(parts, c) == [s[0]] + Join(rest, c);
      assert s == [s[0]] + s[1..];
    }
  }

  /** No part holds the separator. */
  lemma {:induction false} SplitParts(s: string, c: char)
    ensures forall n :: 0 <= n < |Split(s, c)| ==> c !in Split(s, c)[n]
  {
    if s != "" {
      SplitParts(s[1..], c);
      var rest, parts := Split(s[1..], c), Split(s, c);
      forall n | 0 <= n < |parts| ensures c !in parts[n] {
        if s[0] == c {
          assert parts[n] == if n == 0 then "" else rest[n - 1];
        } else {
          assert parts[n] == if n == 0 then [s[0]] + rest[0] else rest[n];
        }
      }
    }
  }

  lemma {:induction false} SplitPlain(s: string, c: char)
    requires c !in s
    ensures Split(s, c) == [s]
  {
    if s != "" {
      assert forall x :: x in s[1..] ==> x in s;
      SplitPlain(s[1..], c);
      assert s == [s[0]] + s[1..];
    }
  }

  lemma {:induction false} SplitAt(a: string, c: char, b: string)
    ensures Split(a + [c] + b, c) == Split(a, c) + Split(b, c)
    decreases |a|
  {
    var s := a + [c] + b;
    if a == "" {
      assert s[1..] == b;
    } else {
      assert s[1..] == a[1..] + [c] + b;
      SplitAt(a[1..], c, b);
    }
  }

  /** Split undoes Join on parts without the separator. */
  lemma {:induction false} SplitOfJoin(parts: seq<string>, c: char)
    requires parts != [] && forall p :: p in parts ==> c !in p
    ensures Split(Join(parts, c), c) == parts
  {
    assert parts[0] in parts;
    SplitPlain(parts[0], c);
    if |parts| > 1 {
      assert forall p :: p in parts[1..] ==> p in parts;
      SplitOfJoin(parts[1..], c);
      SplitAt(parts[0], c, Join(parts[1..], c));
    }
  }

  /** "name:tag" comes apart again when neither half has the separator. */
  lemma SplitPair(a: string, c: char, b: string)
    requires c !in a && c !in b
    ensures Split(a + [c] + b, c) == [a, b]
  {
    SplitAt(a, c, b);
    SplitPlain(a, c);
    SplitPlain(b, c);
  }

  lemma {:induction false} SplitCount(s: string, c: char)
    ensures |Split(s, c)| == 1 <==> c !in s
  {
    if s != "" {
      SplitCount(s[1..], c);
      assert s == [s[0]] + s[1..];
    }
  }

  /** And only then. */
  lemma SplitPairIff(a: string, c: char, b: string)
    ensures Split(a + [c] + b, c) == [a, b] <==> c !in a && c !in b
  {
    SplitAt(a, c, b);
    SplitCount(a, c);
    SplitCount(b, c);
    if c !in a && c !in b { SplitPair(a, c, b); }
  }

  /** strings.TrimRight with a one-character cutset. */
  function TrimRight(s: string, c: char): (r: string)
    ensures r <= s
  {
    if s != "" && s[|s| - 1] == c then TrimRight(s[..|s| - 1], c) else s
  }

  /** strings.TrimLeft with a one-character cutset. */
  function TrimLeft(s: string, c: char): string {
    if s != "" && s[0] == c then TrimLeft(s[1..], c) else s
  }

  /** strings.Trim with a one-character cutset. */
  function Trim(s: string, c: char): string {
    TrimRight(TrimLeft(s, c), c)
  }

  function Copies(c: char, n: nat): string {
    seq(n, _ => c)
  }

  lemma {:induction false} TrimLeftParts(s: string, c: char) returns (n: nat)
    ensures s == Copies(c, n) + TrimLeft(s, c)
    ensures TrimLeft(s, c) != "" ==> TrimLeft(s, c)[0] != c
  {
    n := 0;
    if s != "" && s[0] == c {
      n := TrimLeftParts(s[1..], c);
      n := n + 1;
      assert s == [c] + s[1..] && Copies(c, n) == [c] + Copies(c, n - 1);
    }
  }

  lemma {:induction false} TrimRightParts(s: string, c: char) returns (n: nat)
    ensures s == TrimRight(s, c) + Copies(c, n)
    ensures TrimRight(s, c) != "" ==> TrimRight(s, c)[|TrimRight(s, c)| - 1] != c
  {
    n := 0;
    if s != "" && s[|s| - 1] == c {
      n := TrimRightParts(s[..|s| - 1], c);
      n := n + 1;
      assert s == s[..|s| - 1] + [c] && Copies(c, n) == Copies(c, n - 1) + [c];
    }
  }

  /** The string neither begins nor ends with the character. */
  predicate Bare(s: string, c: char) {
    s != "" ==> s[0] != c && s[|s| - 1] != c
  }

  /** What is trimmed off is that character only, and all of it on both sides. */
  lemma {:induction false} TrimParts(s: string, c: char) returns (l: nat, r: nat)
    ensures s == Copies(c, l) + Trim(s, c) + Copies(c, r) && Bare(Trim(s, c), c)
  {
    l := TrimLeftParts(s, c);
    r := TrimRightParts(TrimLeft(s, c), c);
  }

  lemma {:induction false} TrimLeftOf(n: nat, s: string, c: char)
    requires s != "" && s[0] != c
    ensures TrimLeft(Copies(c, n) + s, c) == s
  {
    if n == 0 {
      assert Copies(c, 0) + s == s;
    } else {
      TrimLeftOf(n - 1, s, c);
      assert (Copies(c, n) + s)[1..] == Copies(c, n - 1) + s;
    }
  }
}
