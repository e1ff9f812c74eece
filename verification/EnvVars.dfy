/**
 Environment variable lists (core/framework/env_var.go).  Overriding a list refines overriding a map:
 names keep their place, and the value found for a name is that of the last entry given for it.
 */
module EnvVars {
  import opened Options

  /** A literal value, or a reference to a key of a secret. */
  datatype Value = Plain(text: string) | FromSecret(secret: string, key: string)

  datatype EnvVar = EnvVar(name: string, value: Value)

  predicate HasName(env: seq<EnvVar>, name: string) {
    exists k :: 0 <= k < |env| && env[k].name == name
  }

  predicate DistinctNames(env: seq<EnvVar>) {
    forall j, k :: 0 <= j < k < |env| ==> env[j].name != env[k].name
  }

  /** GetEnvVar: the first position of a name, or |env|. */
  function Position(env: seq<EnvVar>, name: string): (p: nat)
    ensures p <= |env|
    ensures p < |env| ==> env[p].name == name
    ensures forall k :: 0 <= k < p ==> env[k].name != name
  {
    if env == [] || env[0].name == name then 0 else 1 + Position(env[1..], name)
  }

  /** The entry that GetEnvVar finds and overriding replaces: the first. */
  function Lookup(env: seq<EnvVar>, name: string): Option<EnvVar> {
    var p := Position(env, name);
    if p < |env| then Some(env[p]) else None
  }

  /** The last entry for a name: of a repeated name, what a container sees. */
  function LastOf(env: seq<EnvVar>, name: string): Option<EnvVar> {
    if env == [] then None
    else if env[|env| - 1].name == name then Some(env[|env| - 1])
    else LastOf(env[..|env| - 1], name)
  }

  function Or(a: Option<EnvVar>, b: Option<EnvVar>): Option<EnvVar> {
    if a.Some? then a else b
  }

  /** Replace the first entry of that name, or append. */
  function Put(env: seq<EnvVar>, e: EnvVar): (r: seq<EnvVar>)
    ensures |r| == if HasName(env, e.name) then |env| else |env| + 1
  {
    var p := Position(env, e.name);
    assert HasName(env, e.name) <==> p < |env| by {
      if p < |env| { assert env[p].name == e.name; }
    }
    if p < |env| then env[p := e] else env + [e]
  }

  /** EnvOverride */
  function Override(dst: seq<EnvVar>, src: seq<EnvVar>): seq<EnvVar> {
    if src == [] then dst else Put(Override(dst, src[..|src| - 1]), src[|src| - 1])
  }

  /** DiffEnvVar: the entries of `env1` whose name is not in `env2`. */
  function Diff(env1: seq<EnvVar>, env2: seq<EnvVar>): seq<EnvVar> {
    if env1 == [] then []
    else
      Diff(env1[..|env1| - 1], env2) +
      (if HasName(env2, env1[|env1| - 1].name) then [] else [env1[|env1| - 1]])
  }

  // ------------------------------------------------------------------ one entry

  lemma {:induction false} PositionIs(env: seq<EnvVar>, name: string, p: nat)
    requires p <= |env| && (p < |env| ==> env[p].name == name)
    requires forall k :: 0 <= k < p ==> env[k].name != name
    ensures Position(env, name) == p
  {
    if p > 0 { PositionIs(env[1..], name, p - 1); }
  }

  lemma PutPosition(env: seq<EnvVar>, e: EnvVar, name: string)
    ensures Position(Put(env, e), name) ==
            if name == e.name || Position(env, name) < |env| then Position(env, name) else |Put(env, e)|
  {
    var p, r := Position(env, name), Put(env, e);
    assert forall k :: 0 <= k < |env| ==> r[k].name == env[k].name;
    if name == e.name || p < |env| {
      PositionIs(r, name, p);
    } else {
      PositionIs(r, name, |r|);
    }
  }

  lemma PutLookup(env: seq<EnvVar>, e: EnvVar, name: string)
    ensures Lookup(Put(env, e), name) == if name == e.name then Some(e) else Lookup(env, name)
  {
    PutPosition(env, e, name);
    var p := Position(env, name);
    assert p < |env| && name != e.name ==> Position(env, e.name) != p;
  }

  lemma PutNames(env: seq<EnvVar>, e: EnvVar)
    ensures DistinctNames(env) ==> DistinctNames(Put(env, e))
    ensures forall k :: 0 <= k < |env| ==> Put(env, e)[k].name == env[k].name
    ensures forall n :: HasName(Put(env, e), n) <==> HasName(env, n) || n == e.name
  {
    var r := Put(env, e);
    var p := Position(env, e.name);
    assert r[p] == e;
    forall n ensures HasName(r, n) <==> HasName(env, n) || n == e.name {
      if HasName(env, n) {
        var k :| 0 <= k < |env| && env[k].name == n;
        assert r[k].name == n;
      }
      if HasName(r, n) && n != e.name {
        var k :| 0 <= k < |r| && r[k].name == n;
        assert k < |env| && env[k].name == n;
      }
    }
  }

  // ------------------------------------------------------------------ a whole list

  /** Override refines map override: the last entry given for a name, else what was there. */
  lemma {:induction false} OverrideLookup(dst: seq<EnvVar>, src: seq<EnvVar>, name: string)
    ensures Lookup(Override(dst, src), name) == Or(LastOf(src, name), Lookup(dst, name))
    decreases |src|
  {
    if src != [] {
      var init, e := src[..|src| - 1], src[|src| - 1];
      OverrideLookup(dst, init, name);
      PutLookup(Override(dst, init), e, name);
    }
  }

  lemma {:induction false} HasNameSnoc(env: seq<EnvVar>)
    requires env != []
    ensures forall n :: HasName(env, n) <==> HasName(env[..|env| - 1], n) || n == env[|env| - 1].name
  {
    var init := env[..|env| - 1];
    forall n ensures HasName(env, n) <==> HasName(init, n) || n == env[|env| - 1].name {
      if HasName(init, n) {
        var k :| 0 <= k < |init| && init[k].name == n;
        assert env[k].name == n;
      }
      if HasName(env, n) && n != env[|env| - 1].name {
        var k :| 0 <= k < |env| && env[k].name == n;
        assert init[k].name == n;
      }
    }
  }

  /** Names keep their places, none is lost, none appears from elsewhere, and distinct names stay distinct. */
  lemma {:induction false} OverrideNames(dst: seq<EnvVar>, src: seq<EnvVar>)
    ensures |Override(dst, src)| >= |dst|
    ensures forall k :: 0 <= k < |dst| ==> Override(dst, src)[k].name == dst[k].name
    ensures DistinctNames(dst) ==> DistinctNames(Override(dst, src))
    ensures forall n :: HasName(Override(dst, src), n) <==> HasName(dst, n) || HasName(src, n)
    decreases |src|
  {
    if src == [] {
      assert forall n :: !HasName(src, n);
    } else {
      var init, e := src[..|src| - 1], src[|src| - 1];
      OverrideNames(dst, init);
      PutNames(Override(dst, init), e);
      HasNameSnoc(src);
    }
  }

  lemma {:induction false} OverrideConcat(dst: seq<EnvVar>, a: seq<EnvVar>, b: seq<EnvVar>)
    ensures Override(dst, a + b) == Override(Override(dst, a), b)
    decreases |b|
  {
    if b == [] {
      assert a + b == a;
    } else {
      var n := |b| - 1;
      assert (a + b)[..|a + b| - 1] == a + b[..n];
      OverrideConcat(dst, a, b[..n]);
    }
  }

  /** Two puts of different names commute once the first of them has its place. */
  lemma PutCommutes(env: seq<EnvVar>, e: EnvVar, f: EnvVar)
    requires e.name != f.name && HasName(env, e.name)
    ensures Put(Put(env, f), e) == Put(Put(env, e), f)
  {
    PutPosition(env, f, e.name);
    PutPosition(env, e, f.name);
    var p := Position(env, e.name);
    assert p < |env|;
  }

  lemma PutTwice(env: seq<EnvVar>, e: EnvVar, f: EnvVar)
    requires e.name == f.name
    ensures Put(Put(env, e), f) == Put(env, f)
  {
    PutPosition(env, e, f.name);
  }

  lemma {:induction false} PutAfterOverride(env: seq<EnvVar>, src: seq<EnvVar>, e: EnvVar)
    requires HasName(env, e.name) && !HasName(src, e.name)
    ensures Put(Override(env, src), e) == Override(Put(env, e), src)
    decreases |src|
  {
    if src != [] {
      var init, f := src[..|src| - 1], src[|src| - 1];
      assert f.name != e.name && forall k :: 0 <= k < |init| ==> init[k] == src[k];
      PutAfterOverride(env, init, e);
      OverrideNames(env, init);
      PutCommutes(Override(env, init), e, f);
    }
  }

  predicate AtMostOnce(env: seq<EnvVar>, name: string) {
    forall j, k :: 0 <= j < k < |env| ==> env[j].name != name || env[k].name != name
  }

  lemma {:induction false} OverrideOne(dst: seq<EnvVar>, a: seq<EnvVar>, x: EnvVar, b: seq<EnvVar>)
    ensures Override(dst, a + [x] + b) == Override(Put(Override(dst, a), x), b)
  {
    OverrideConcat(dst, a + [x], b);
    assert (a + [x])[..|a|] == a;
  }

  lemma {:induction false} PutInside(src: seq<EnvVar>, e: EnvVar)
    requires AtMostOnce(src, e.name) && Position(src, e.name) < |src|
    ensures var p := Position(src, e.name);
            && src == src[..p] + [src[p]] + src[p + 1..]
            && Put(src, e) == src[..p] + [e] + src[p + 1..]
            && !HasName(src[p + 1..], e.name)
  {
  }

  /** Changing an entry of the source is the same as putting it afterwards. */
  lemma {:induction false} OverridePut(dst: seq<EnvVar>, src: seq<EnvVar>, e: EnvVar)
    requires AtMostOnce(src, e.name)
    ensures Override(dst, Put(src, e)) == Put(Override(dst, src), e)
  {
    var p := Position(src, e.name);
    if p == |src| {
      assert (src + [e])[..|src|] == src;
    } else {
      var a, x, b := src[..p], src[p], src[p + 1..];
      var base := Override(dst, a);
      PutInside(src, e);
      calc {
        Override(dst, Put(src, e));
        Override(dst, a + [e] + b);
        { OverrideOne(dst, a, e, b); }
        Override(Put(base, e), b);
        { PutTwice(base, x, e); }
        Override(Put(Put(base, x), e), b);
        { PutNames(base, x);
          PutAfterOverride(Put(base, x), b, e); }
        Put(Override(Put(base, x), b), e);
        { OverrideOne(dst, a, x, b); }
        Put(Override(dst, src), e);
      }
    }
  }

  lemma {:induction false} AtMostOnceKept(env: seq<EnvVar>, src: seq<EnvVar>, name: string)
    requires AtMostOnce(env, name)
    ensures AtMostOnce(Override(env, src), name)
    decreases |src|
  {
    if src != [] {
      var init, e := src[..|src| - 1], src[|src| - 1];
      AtMostOnceKept(env, init, name);
      PutNames(Override(env, init), e);
    }
  }

  /**
   Overriding is associative when the last list names nothing twice-named in the middle one; in
   particular when the middle list has distinct names.
   */
  lemma {:induction false} OverrideAssociative(a: seq<EnvVar>, b: seq<EnvVar>, c: seq<EnvVar>)
    requires forall k :: 0 <= k < |c| ==> AtMostOnce(b, c[k].name)
    ensures Override(Override(a, b), c) == Override(a, Override(b, c))
    decreases |c|
  {
    if c != [] {
      var init, e := c[..|c| - 1], c[|c| - 1];
      OverrideAssociative(a, b, init);
      AtMostOnceKept(b, init, e.name);
      OverridePut(a, Override(b, init), e);
    }
  }

  lemma {:induction false} OverrideSingle(env: seq<EnvVar>, e: EnvVar)
    ensures Override(env, [e]) == Put(env, e)
  {
    assert [e][..0] == [];
  }

  lemma {:induction false} OverridePair(env: seq<EnvVar>, e: EnvVar, f: EnvVar)
    ensures Override(env, [e, f]) == Put(Put(env, e), f)
  {
    assert [e, f][..1] == [e];
    OverrideSingle(env, e);
  }

  /** Without that it is not: a duplicate left in the middle list wins over the last list. */
  lemma {:induction false} StaleDuplicateWins(x1: EnvVar, x2: EnvVar, x3: EnvVar)
    requires x1.name == x2.name == x3.name
    ensures Override(Override([], [x1, x2]), [x3]) == [x3]
    ensures Override([], Override([x1, x2], [x3])) == [x2]
  {
    OverridePair([], x1, x2);
    OverridePair([], x3, x2);
    OverrideSingle([x2], x3);
    OverrideSingle([x1, x2], x3);
    assert Put([], x1) == [x1] && Put([], x3) == [x3];
  }

  /** Overriding twice is overriding once, even when the source names something twice. */
  lemma {:induction false} OverrideIdempotent(dst: seq<EnvVar>, src: seq<EnvVar>)
    ensures Override(Override(dst, src), src) == Override(dst, src)
    decreases |src|
  {
    if src != [] {
      var init, e := src[..|src| - 1], src[|src| - 1];
      var once := Override(dst, init);
      OverrideIdempotent(dst, init);
      OverrideNames(dst, init);
      PutThenInit(once, init, e);
    }
  }

  /** Once `init` has its effect, putting `e` and running `init` and `e` again leaves `e`'s effect. */
  lemma {:induction false} PutThenInit(once: seq<EnvVar>, init: seq<EnvVar>, e: EnvVar)
    requires Override(once, init) == once
    ensures Put(Override(Put(once, e), init), e) == Put(once, e)
  {
    if HasName(once, e.name) {
      PutInto(once, init, e);
    } else {
      OverrideNames(once, init);
      var more := once + [e];
      assert Put(once, e) == more;
      OverrideAppended(once, init, e);
      PutTwice(once, e, e);
    }
  }

  /** `e` put last hides whatever the list before it did to that name. */
  lemma {:induction false} PutInto(env: seq<EnvVar>, src: seq<EnvVar>, e: EnvVar)
    requires HasName(env, e.name)
    ensures Put(Override(Put(env, e), src), e) == Put(Override(env, src), e)
    decreases |src|
  {
    if src == [] {
      PutTwice(env, e, e);
    } else {
      var init, f := src[..|src| - 1], src[|src| - 1];
      PutInto(env, init, e);
      OverrideNames(env, init);
      OverrideNames(Put(env, e), init);
      PutNames(env, e);
      var x, y := Override(Put(env, e), init), Override(env, init);
      if f.name == e.name {
        PutTwice(x, f, e);
        PutTwice(y, f, e);
      } else {
        PutCommutes(x, e, f);
        PutCommutes(y, e, f);
      }
    }
  }

  /** A fresh name at the end does not disturb a list that names only what was there. */
  lemma {:induction false} OverrideAppended(env: seq<EnvVar>, src: seq<EnvVar>, e: EnvVar)
    requires !HasName(env, e.name) && !HasName(src, e.name)
    requires forall n :: HasName(src, n) ==> HasName(env, n)
    ensures Override(env + [e], src) == Override(env, src) + [e]
    decreases |src|
  {
    if src != [] {
      var init, f := src[..|src| - 1], src[|src| - 1];
      assert forall k :: 0 <= k < |init| ==> init[k] == src[k];
      assert src[|src| - 1].name == f.name;
      forall n | HasName(init, n) ensures HasName(env, n) {
        var k :| 0 <= k < |init| && init[k].name == n;
        assert src[k].name == n;
      }
      OverrideAppended(env, init, e);
      OverrideNames(env, init);
      PutBefore(Override(env, init), e, f);
    }
  }

  lemma PutBefore(env: seq<EnvVar>, e: EnvVar, f: EnvVar)
    requires HasName(env, f.name)
    ensures Put(env + [e], f) == Put(env, f) + [e]
  {
    var p := Position(env, f.name);
    assert p < |env|;
    PositionIs(env + [e], f.name, p);
  }

  // ------------------------------------------------------------------ last entries

  lemma {:induction false} LastIs(env: seq<EnvVar>, n: string, p: nat)
    requires p < |env| && env[p].name == n && forall k :: p < k < |env| ==> env[k].name != n
    ensures LastOf(env, n) == Some(env[p])
    decreases |env|
  {
    if p < |env| - 1 {
      var init := env[..|env| - 1];
      assert forall k :: 0 <= k < |init| ==> init[k] == env[k];
      LastIs(init, n, p);
    }
  }

  lemma {:induction false} LastNone(env: seq<EnvVar>, n: string)
    ensures LastOf(env, n).None? <==> !HasName(env, n)
    decreases |env|
  {
    if env != [] {
      LastNone(env[..|env| - 1], n);
      HasNameSnoc(env);
    }
  }

  lemma {:induction false} LastPosition(env: seq<EnvVar>, n: string) returns (p: nat)
    requires HasName(env, n)
    ensures p < |env| && env[p].name == n && forall k :: p < k < |env| ==> env[k].name != n
    decreases |env|
  {
    if env[|env| - 1].name == n {
      p := |env| - 1;
    } else {
      var init := env[..|env| - 1];
      HasNameSnoc(env);
      p := LastPosition(init, n);
      assert forall k :: 0 <= k < |init| ==> init[k] == env[k];
    }
  }

  lemma {:induction false} LastOfConcat(a: seq<EnvVar>, b: seq<EnvVar>, n: string)
    ensures LastOf(a + b, n) == Or(LastOf(b, n), LastOf(a, n))
    decreases |b|
  {
    if b == [] {
      assert a + b == a;
    } else {
      assert (a + b)[..|a + b| - 1] == a + b[..|b| - 1];
      LastOfConcat(a, b[..|b| - 1], n);
    }
  }

  lemma {:induction false} PutLastKept(env: seq<EnvVar>, e: EnvVar, n: string)
    requires HasName(env, n)
    ensures LastOf(Put(env, e), n) == if n == e.name && AtMostOnce(env, n) then Some(e) else LastOf(env, n)
  {
    PutNames(env, e);
    var q := LastPosition(env, n);
    LastIs(env, n, q);
    LastIs(Put(env, e), n, q);
  }

  lemma {:induction false} PutAtMostOnce(env: seq<EnvVar>, e: EnvVar, n: string)
    ensures AtMostOnce(Put(env, e), n) <==> AtMostOnce(env, n)
  {
    PutNames(env, e);
  }

  /** A put is seen by a later reader of the last entry unless an older duplicate stands behind it. */
  lemma {:induction false} PutLast(env: seq<EnvVar>, e: EnvVar, n: string)
    ensures LastOf(Put(env, e), n) == if n == e.name && AtMostOnce(env, n) then Some(e) else LastOf(env, n)
    ensures AtMostOnce(Put(env, e), n) <==> AtMostOnce(env, n)
  {
    PutAtMostOnce(env, e, n);
    if HasName(env, n) {
      PutLastKept(env, e, n);
    } else {
      PutNames(env, e);
      LastNone(env, n);
      LastNone(Put(env, e), n);
      if n == e.name { LastIs(Put(env, e), n, |env|); }
    }
  }

  /** The last entry after an override, for every list, with or without duplicates. */
  lemma {:induction false} OverrideLast(dst: seq<EnvVar>, src: seq<EnvVar>, n: string)
    ensures LastOf(Override(dst, src), n) ==
            if AtMostOnce(dst, n) then Or(LastOf(src, n), LastOf(dst, n)) else LastOf(dst, n)
    ensures AtMostOnce(Override(dst, src), n) <==> AtMostOnce(dst, n)
    decreases |src|
  {
    if src != [] {
      var init, e := src[..|src| - 1], src[|src| - 1];
      OverrideLast(dst, init, n);
      PutLast(Override(dst, init), e, n);
    }
  }

  /** Overriding through `b` is associative. */
  ghost predicate Associates(a: seq<EnvVar>, b: seq<EnvVar>, c: seq<EnvVar>) {
    Override(Override(a, b), c) == Override(a, Override(b, c))
  }

  /** A name that the middle list repeats shuts out the last list: its own last entry is what remains. */
  lemma {:induction false} RepeatedNameSticks(b: seq<EnvVar>, e: EnvVar)
    requires !AtMostOnce(b, e.name)
    ensures Lookup(Override(Override([], b), [e]), e.name) == Some(e)
    ensures Lookup(Override([], Override(b, [e])), e.name) == LastOf(b, e.name)
  {
    OverrideSingle(Override([], b), e);
    PutLookup(Override([], b), e, e.name);
    OverrideLookup([], Override(b, [e]), e.name);
    OverrideLast(b, [e], e.name);
    LastNone(b, e.name);
  }

  /** For all lists around it: overriding through `b` is associative exactly when `b` has distinct names. */
  lemma AssociativeIffMiddleDistinct(b: seq<EnvVar>)
    ensures (forall a, c :: Associates(a, b, c)) <==> DistinctNames(b)
  {
    if DistinctNames(b) {
      forall a, c ensures Associates(a, b, c) {
        OverrideAssociative(a, b, c);
      }
    } else {
      var j, k :| 0 <= j < k < |b| && b[j].name == b[k].name;
      var n := b[j].name;
      var last := LastOf(b, n);
      var e := EnvVar(n, if last == Some(EnvVar(n, Plain("x"))) then Plain("y") else Plain("x"));
      assert Plain("x") != Plain("y") by { assert "x"[0] != "y"[0]; }
      RepeatedNameSticks(b, e);
      assert !Associates([], b, [e]);
    }
  }

  // ------------------------------------------------------------------ differences

  /** Diff goes entry by entry, so it keeps their order. */
  lemma {:induction false} DiffConcat(a: seq<EnvVar>, b: seq<EnvVar>, env2: seq<EnvVar>)
    ensures Diff(a + b, env2) == Diff(a, env2) + Diff(b, env2)
    decreases |b|
  {
    if b == [] {
      assert a + b == a;
    } else {
      assert (a + b)[..|a + b| - 1] == a + b[..|b| - 1];
      DiffConcat(a, b[..|b| - 1], env2);
    }
  }

  /** Diff keeps exactly the entries with foreign names. */
  lemma {:induction false} DiffMembers(env1: seq<EnvVar>, env2: seq<EnvVar>)
    ensures forall e :: e in Diff(env1, env2) <==> e in env1 && !HasName(env2, e.name)
    decreases |env1|
  {
    if env1 != [] {
      var init, last := env1[..|env1| - 1], env1[|env1| - 1];
      DiffMembers(init, env2);
      assert env1 == init + [last];
    }
  }

  lemma {:induction false} DiffDistinct(env1: seq<EnvVar>, env2: seq<EnvVar>)
    requires DistinctNames(env1)
    ensures DistinctNames(Diff(env1, env2))
    decreases |env1|
  {
    if env1 != [] {
      var init, last := env1[..|env1| - 1], env1[|env1| - 1];
      DiffDistinct(init, env2);
      DiffMembers(init, env2);
      var d := Diff(init, env2);
      forall k | 0 <= k < |d| ensures d[k].name != last.name {
        assert d[k] in d && d[k] in init;
      }
    }
  }

  /** What follows a list, with names of its own, is the difference to that list. */
  lemma {:induction false} DiffOfExtension(base: seq<EnvVar>, extra: seq<EnvVar>)
    requires forall k :: 0 <= k < |extra| ==> !HasName(base, extra[k].name)
    ensures Diff(base + extra, base) == extra
    decreases |extra|
  {
    if extra == [] {
      assert base + extra == base;
      DiffSelf(base, base);
    } else {
      var n := |extra| - 1;
      assert (base + extra)[..|base + extra| - 1] == base + extra[..n];
      DiffOfExtension(base, extra[..n]);
      assert extra == extra[..n] + [extra[n]];
    }
  }

  lemma {:induction false} DiffSelf(env: seq<EnvVar>, base: seq<EnvVar>)
    requires forall k :: 0 <= k < |env| ==> HasName(base, env[k].name)
    ensures Diff(env, base) == []
    decreases |env|
  {
    if env != [] {
      DiffSelf(env[..|env| - 1], base);
    }
  }

  // ------------------------------------------------------------------ the loops

  method GetEnvVar(name: string, env: seq<EnvVar>) returns (pos: int)
    ensures if HasName(env, name) then pos == Position(env, name) else pos == -1
  {
    for k := 0 to |env|
      invariant forall j :: 0 <= j < k ==> env[j].name != name
    {
      if env[k].name == name {
        PositionIs(env, name, k);
        return k;
      }
    }
    pos := -1;
  }

  /** append: in place while there is room, else into a larger array. */
  method Append(a: array<EnvVar>, n: nat, e: EnvVar) returns (out: array<EnvVar>)
    requires n <= a.Length
    modifies a
    ensures n < out.Length && out[..n + 1] == old(a[..n]) + [e]
    ensures out == a || (fresh(out) && n == a.Length)
    ensures a[..n] == old(a[..n])
  {
    if n < a.Length {
      a[n] := e;
      out := a;
    } else {
      out := new EnvVar[2 * n + 1](_ => e);
      for k := 0 to n
        invariant out[..k] == a[..k] && unchanged(a)
      {
        out[k] := a[k];
      }
      out[n] := e;
    }
  }

  /** The body of EnvOverride's loop. */
  method PutInPlace(a: array<EnvVar>, n: nat, e: EnvVar) returns (out: array<EnvVar>, m: nat)
    requires n <= a.Length
    modifies a
    ensures n <= m <= out.Length && out[..m] == Put(old(a[..n]), e)
    ensures out == a || (fresh(out) && m > a.Length && a[..n] == old(a[..n]))
  {
    var list := a[..n];
    var pos := GetEnvVar(e.name, list);
    if pos != -1 {
      a[pos] := e;
      out, m := a, n;
      assert a[..n] == list[pos := e];
    } else {
      assert Position(list, e.name) == |list|;
      out := Append(a, n, e);
      m := n + 1;
    }
  }

  /**
   A Go slice being overridden: what the caller's own list holds, whether the result still shares its array,
   and the result.
   */
  datatype Slices = Slices(caller: seq<EnvVar>, shared: bool, result: seq<EnvVar>)

  predicate Fitting(s: Slices) {
    |s.caller| <= |s.result|
  }

  /** One entry: in place while the array of this size has room, and never again after that. */
  function Turn(size: nat, s: Slices, e: EnvVar): (r: Slices)
    requires Fitting(s)
    ensures Fitting(r)
  {
    var put := Put(s.result, e);
    if s.shared && |put| <= size then Slices(put[..|s.caller|], true, put) else Slices(s.caller, false, put)
  }

  function Turns(size: nat, list: seq<EnvVar>, src: seq<EnvVar>): (r: Slices)
    ensures Fitting(r)
  {
    if src == [] then Slices(list, true, list)
    else Turn(size, Turns(size, list, src[..|src| - 1]), src[|src| - 1])
  }

  /** The body of EnvOverride's loop, where `a` is the array in use and `dst[..n]` the caller's list. */
  method PutNext(dst: array<EnvVar>, n: nat, a: array<EnvVar>, m: nat, e: EnvVar)
    returns (out: array<EnvVar>, m': nat)
    requires n <= m <= a.Length && n <= dst.Length
    modifies a
    ensures n <= m' <= out.Length && (out == a || fresh(out))
    ensures Slices(dst[..n], out == dst, out[..m']) ==
            Turn(dst.Length, Slices(old(dst[..n]), a == dst, old(a[..m])), e)
  {
    out, m' := PutInPlace(a, m, e);
    if out == dst {
      assert dst[..n] == out[..m'][..n];
    } else if a == dst {
      assert dst[..n] == dst[..m][..n] == old(dst[..m])[..n] == old(dst[..n]);
    }
  }

  /**
   EnvOverride on a Go slice: `dst[..n]` is the list and the rest of the array is spare room.  Entries are
   written in place, so the caller's own list changes where names match; a new array is taken when the room
   runs out, and from then on the caller's list is left alone.
   */
  method EnvOverride(dst: array<EnvVar>, n: nat, src: seq<EnvVar>) returns (out: array<EnvVar>, m: nat)
    requires n <= dst.Length
    modifies dst
    ensures m <= out.Length && (out == dst || fresh(out))
    ensures out[..m] == Override(old(dst[..n]), src)
    ensures Slices(dst[..n], out == dst, out[..m]) == Turns(dst.Length, old(dst[..n]), src)
  {
    out, m := dst, n;
    for i := 0 to |src|
      invariant n <= m <= out.Length && (out == dst || fresh(out))
      invariant Slices(dst[..n], out == dst, out[..m]) == Turns(dst.Length, old(dst[..n]), src[..i])
    {
      assert src[..i + 1][..i] == src[..i];
      out, m := PutNext(dst, n, out, m, src[i]);
    }
    assert src[..|src|] == src;
    TurnsOverride(dst.Length, old(dst[..n]), src);
  }

  lemma {:induction false} TurnsOverride(size: nat, list: seq<EnvVar>, src: seq<EnvVar>)
    ensures Turns(size, list, src).result == Override(list, src)
    decreases |src|
  {
    if src != [] { TurnsOverride(size, list, src[..|src| - 1]); }
  }

  /** The first `stay` entries of `src`, and no more, can be worked off in an array of this size. */
  predicate FitsUpTo(list: seq<EnvVar>, src: seq<EnvVar>, size: nat, stay: nat) {
    && stay <= |src| && |Override(list, src[..stay])| <= size
    && (stay < |src| ==> |Override(list, src[..stay + 1])| > size)
  }

  lemma FitsNext(list: seq<EnvVar>, src: seq<EnvVar>, size: nat, stay: nat)
    requires src != [] && FitsUpTo(list, src[..|src| - 1], size, stay)
    requires stay < |src| - 1 || |Override(list, src)| > size
    ensures FitsUpTo(list, src, size, stay)
  {
    var init := src[..|src| - 1];
    assert init[..stay] == src[..stay] && src[..|src|] == src;
    assert stay < |init| ==> init[..stay + 1] == src[..stay + 1];
  }

  /**
   The caller's list in the end: overridden by as many entries as fit into its array, with all its names.
   The result shares the array exactly when all of them do.
   */
  lemma {:induction false} CallerLeftWith(size: nat, list: seq<EnvVar>, src: seq<EnvVar>) returns (stay: nat)
    requires |list| <= size
    ensures FitsUpTo(list, src, size, stay) && (Turns(size, list, src).shared <==> stay == |src|)
    ensures |list| <= |Override(list, src[..stay])|
    ensures Turns(size, list, src).caller == Override(list, src[..stay])[..|list|]
    decreases |src|
  {
    if src == [] {
      stay := 0;
      assert list[..|list|] == list;
    } else {
      var init := src[..|src| - 1];
      stay := CallerLeftWith(size, list, init);
      TurnsOverride(size, list, init);
      assert init[..stay] == src[..stay] && src[..|src|] == src;
      if stay == |init| && |Override(list, src)| <= size {
        stay := |src|;
        OverrideNames(list, src);
        assert init[..|init|] == init;
      } else {
        FitsNext(list, src, size, stay);
      }
    }
  }

  /** No entry of the source has, at last, another value for a name of the list. */
  predicate Agrees(env: seq<EnvVar>, src: seq<EnvVar>) {
    forall k :: 0 <= k < |env| && Position(env, env[k].name) == k ==>
      Or(LastOf(src, env[k].name), Some(env[k])) == Some(env[k])
  }

  /** Only the first entry of a name is ever replaced. */
  lemma {:induction false} OverrideAt(env: seq<EnvVar>, src: seq<EnvVar>, k: nat)
    requires k < |env|
    ensures k < |Override(env, src)|
    ensures Some(Override(env, src)[k]) ==
            if Position(env, env[k].name) == k then Or(LastOf(src, env[k].name), Some(env[k])) else Some(env[k])
    decreases |src|
  {
    if src != [] {
      var init, e := src[..|src| - 1], src[|src| - 1];
      OverrideAt(env, init, k);
      OverrideNames(env, init);
      OverridePosition(env, init, env[k].name);
      if e.name == env[k].name { OverridePosition(env, init, e.name); }
      PutPosition(Override(env, init), e, env[k].name);
    }
  }

  lemma {:induction false} OverridePosition(env: seq<EnvVar>, src: seq<EnvVar>, name: string)
    requires Position(env, name) < |env|
    ensures Position(Override(env, src), name) == Position(env, name)
  {
    OverrideNames(env, src);
    PositionIs(Override(env, src), name, Position(env, name));
  }

  lemma {:induction false} OverrideKeepsIff(env: seq<EnvVar>, src: seq<EnvVar>)
    ensures |env| <= |Override(env, src)|
    ensures Override(env, src)[..|env|] == env <==> Agrees(env, src)
  {
    OverrideNames(env, src);
    var r := Override(env, src)[..|env|];
    forall k | 0 <= k < |env|
      ensures Some(r[k]) ==
              if Position(env, env[k].name) == k then Or(LastOf(src, env[k].name), Some(env[k])) else Some(env[k])
    {
      OverrideAt(env, src, k);
    }
    if Agrees(env, src) {
      assert forall k :: 0 <= k < |env| ==> r[k] == env[k];
    }
  }

  /**
   So the caller's list is unchanged exactly when, as far as the room reaches, the source agrees with it;
   otherwise what was meant for the result shows up in the list it was made from.  Its names stay.
   */
  lemma {:induction false} CallerUnchangedIff(size: nat, list: seq<EnvVar>, src: seq<EnvVar>) returns (stay: nat)
    requires |list| <= size
    ensures FitsUpTo(list, src, size, stay) && (Turns(size, list, src).caller == list <==> Agrees(list, src[..stay]))
    ensures SameNames(list, Turns(size, list, src).caller)
  {
    stay := CallerLeftWith(size, list, src);
    OverrideKeepsIff(list, src[..stay]);
    OverrideNames(list, src[..stay]);
  }

  predicate SameNames(a: seq<EnvVar>, b: seq<EnvVar>) {
    |a| == |b| && forall k :: 0 <= k < |a| ==> a[k].name == b[k].name
  }

  method DiffEnvVar(env1: seq<EnvVar>, env2: seq<EnvVar>) returns (diff: seq<EnvVar>)
    ensures diff == Diff(env1, env2)
  {
    var eMap: map<string, EnvVar> := map[];
    for i := 0 to |env2|
      invariant forall n :: n in eMap <==> exists k :: 0 <= k < i && env2[k].name == n
    {
      eMap := eMap[env2[i].name := env2[i]];
    }
    diff := [];
    for i := 0 to |env1|
      invariant diff == Diff(env1[..i], env2)
    {
      assert env1[..i + 1][..i] == env1[..i];
      assert env1[i].name in eMap <==> HasName(env2, env1[i].name);
      if env1[i].name !in eMap {
        diff := diff + [env1[i]];
      }
    }
    assert env1[..|env1|] == env1;
  }
}
