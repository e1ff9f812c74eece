/**
 Splitting PEM bundles into certificates (core/framework/pkcs12.go).  A piece runs up to and including
 the encapsulation boundary that closes a certificate (sections 2 and 5.1 of RFC 7468).
 */
module Pem {
  import opened Options
  import opened Strings

  const EndBlock := "-----END CERTIFICATE-----"

  predicate OccursAt(s: string, m: string, p: nat) {
    p + |m| <= |s| && s[p..p + |m|] == m
  }

  predicate Contains(s: string, m: string) {
    exists p: nat :: p <= |s| && OccursAt(s, m, p)
  }

  /** strings.Index from a position on: the first occurrence. */
  function IndexFrom(s: string, m: string, from: nat): (r: Option<nat>)
    requires from <= |s|
    ensures r.Some? ==> from <= r.value && OccursAt(s, m, r.value)
    ensures r.Some? ==> forall q: nat :: from <= q < r.value ==> !OccursAt(s, m, q)
    ensures r.None? ==> forall q: nat :: from <= q ==> !OccursAt(s, m, q)
    decreases |s| - from
  {
    if OccursAt(s, m, from) then Some(from)
    else if from == |s| then None
    else IndexFrom(s, m, from + 1)
  }

  function Index(s: string, m: string): Option<nat> {
    IndexFrom(s, m, 0)
  }

  /** The recursion of splitCertificates, for any end marker and any cleaning of a piece. */
  function SplitOn(
      certificate: string, index: nat, certificates: seq<string>, m: string, clean: string -> string): seq<string>
    requires index <= |certificate| && m != ""
    decreases |certificate| - index
  {
    if index == |certificate| then certificates
    else
      match Index(certificate[index..], m)
      case None => certificates
      case Some(p) =>
        var last := p + |m| + index;
        SplitOn(certificate, last, certificates + [clean(certificate[index..last])], m, clean)
  }

  function TrimNewlines(s: string): string {
    Trim(s, '\n')
  }

  function SplitCertificates(certificate: string, index: nat, certificates: seq<string>): seq<string>
    requires index <= |certificate|
  {
    SplitOn(certificate, index, certificates, EndBlock, TrimNewlines)
  }

  // ------------------------------------------------------------------ what the pieces are

  /** A block: it holds the marker once, at its end. */
  ghost predicate Block(s: string, m: string) {
    |s| >= |m| && forall p: nat :: OccursAt(s, m, p) <==> p == |s| - |m|
  }

  /** The pieces before trimming. */
  function Pieces(s: string, m: string): seq<string>
    requires m != ""
    decreases |s|
  {
    match Index(s, m)
    case None => []
    case Some(p) => [s[..p + |m|]] + Pieces(s[p + |m|..], m)
  }

  function Rest(s: string, m: string): string
    requires m != ""
    decreases |s|
  {
    match Index(s, m)
    case None => s
    case Some(p) => Rest(s[p + |m|..], m)
  }

  function Concat(parts: seq<string>): string {
    if parts == [] then "" else parts[0] + Concat(parts[1..])
  }

  function Cleaned(parts: seq<string>, clean: string -> string): (r: seq<string>)
    ensures |r| == |parts|
    ensures forall n :: 0 <= n < |parts| ==> r[n] == clean(parts[n])
  {
    seq(|parts|, n requires 0 <= n < |parts| => clean(parts[n]))
  }

  /** The certificates of one bundle. */
  function Certificates(s: string): seq<string> {
    Cleaned(Pieces(s, EndBlock), TrimNewlines)
  }

  lemma PiecesStep(s: string, m: string)
    requires m != "" && Index(s, m).Some?
    ensures var e := Index(s, m).value + |m|;
            e <= |s| && Pieces(s, m) == [s[..e]] + Pieces(s[e..], m)
  {
  }

  lemma RestStep(s: string, m: string)
    requires m != "" && Index(s, m).Some?
    ensures var e := Index(s, m).value + |m|; e <= |s| && Rest(s, m) == Rest(s[e..], m)
  {
  }

  lemma NoPieces(s: string, m: string)
    requires m != "" && (s == "" || Index(s, m).None?)
    ensures Pieces(s, m) == []
  {
    assert s == "" ==> !OccursAt(s, m, 0);
  }

  lemma {:induction false} SplitOnStep(
      certificate: string, index: nat, certificates: seq<string>, m: string, clean: string -> string)
    requires index < |certificate| && m != "" && Index(certificate[index..], m).Some?
    ensures var s := certificate[index..];
            var e := Index(s, m).value + |m|;
            && index + e <= |certificate| && certificate[index + e..] == s[e..]
            && SplitOn(certificate, index, certificates, m, clean) ==
               SplitOn(certificate, index + e, certificates + [clean(s[..e])], m, clean)
  {
    var s := certificate[index..];
    var e := Index(s, m).value + |m|;
    assert certificate[index..index + e] == s[..e];
  }

  lemma {:induction false} CleanedStep(before: seq<string>, piece: string, rest: seq<string>, clean: string -> string)
    ensures before + [clean(piece)] + Cleaned(rest, clean) == before + Cleaned([piece] + rest, clean)
  {
    assert Cleaned([piece] + rest, clean) == [clean(piece)] + Cleaned(rest, clean);
  }

  /** The recursion appends the cleaned pieces of what is left to what it was given. */
  lemma {:induction false} SplitIsPieces(
      certificate: string, index: nat, certificates: seq<string>, m: string, clean: string -> string)
    requires index <= |certificate| && m != ""
    ensures SplitOn(certificate, index, certificates, m, clean) ==
            certificates + Cleaned(Pieces(certificate[index..], m), clean)
    decreases |certificate| - index
  {
    var s := certificate[index..];
    if index == |certificate| || Index(s, m).None? {
      NoPieces(s, m);
      assert certificates + Cleaned([], clean) == certificates;
    } else {
      var e := Index(s, m).value + |m|;
      var piece, next := s[..e], index + e;
      calc {
        SplitOn(certificate, index, certificates, m, clean);
        { SplitOnStep(certificate, index, certificates, m, clean); }
        SplitOn(certificate, next, certificates + [clean(piece)], m, clean);
        { SplitIsPieces(certificate, next, certificates + [clean(piece)], m, clean); }
        certificates + [clean(piece)] + Cleaned(Pieces(certificate[next..], m), clean);
        { assert certificate[next..] == s[e..]; }
        certificates + [clean(piece)] + Cleaned(Pieces(s[e..], m), clean);
        { CleanedStep(certificates, piece, Pieces(s[e..], m), clean); }
        certificates + Cleaned([piece] + Pieces(s[e..], m), clean);
        { PiecesStep(s, m); }
        certificates + Cleaned(Pieces(s, m), clean);
      }
    }
  }

  lemma FirstPieceIsBlock(s: string, m: string)
    requires Index(s, m).Some?
    ensures Block(s[..Index(s, m).value + |m|], m)
  {
    var e := Index(s, m).value + |m|;
    var b := s[..e];
    forall p: nat ensures OccursAt(b, m, p) <==> p == |b| - |m| {
      if p + |m| <= |b| {
        assert b[p..p + |m|] == s[p..p + |m|];
        assert OccursAt(b, m, p) <==> OccursAt(s, m, p);
      }
    }
  }

  lemma {:induction false} CoverStep(part: string, parts: seq<string>, rest: string)
    ensures Concat([part] + parts) + rest == part + (Concat(parts) + rest)
  {
    assert ([part] + parts)[1..] == parts;
    Regroup(part, Concat(parts), rest);
  }

  /** Nothing is lost or invented: the pieces and the rest make up the bundle. */
  lemma {:induction false} PiecesCover(s: string, m: string)
    requires m != ""
    ensures Concat(Pieces(s, m)) + Rest(s, m) == s
    decreases |s|
  {
    if Index(s, m).Some? {
      var e := Index(s, m).value + |m|;
      PiecesCover(s[e..], m);
      PiecesStep(s, m);
      RestStep(s, m);
      CoverStep(s[..e], Pieces(s[e..], m), Rest(s[e..], m));
      assert s == s[..e] + s[e..];
    }
  }

  /** Every piece is a block, and no marker is left in the rest. */
  lemma {:induction false} PiecesAreBlocks(s: string, m: string)
    requires m != ""
    ensures forall n :: 0 <= n < |Pieces(s, m)| ==> Block(Pieces(s, m)[n], m)
    ensures !Contains(Rest(s, m), m)
    decreases |s|
  {
    if Index(s, m).Some? {
      var e := Index(s, m).value + |m|;
      FirstPieceIsBlock(s, m);
      PiecesAreBlocks(s[e..], m);
      PiecesStep(s, m);
      var pieces, rest := Pieces(s, m), Pieces(s[e..], m);
      assert pieces == [s[..e]] + rest && Rest(s, m) == Rest(s[e..], m);
      forall n | 0 <= n < |pieces| ensures Block(pieces[n], m) {
        assert n > 0 ==> pieces[n] == rest[n - 1];
      }
    }
  }

  lemma FirstOccurrence(b: string, tail: string, m: string)
    requires Block(b, m)
    ensures Index(b + tail, m) == Some(|b| - |m|)
  {
    var s := b + tail;
    var at := |b| - |m|;
    assert OccursAt(b, m, at);
    assert s[at..at + |m|] == b[at..at + |m|];
    assert OccursAt(s, m, at);
    forall q: nat | q < at ensures !OccursAt(s, m, q) {
      assert s[q..q + |m|] == b[q..q + |m|];
      assert !OccursAt(b, m, q);
    }
  }

  /** Conversely, blocks put one after the other come apart into exactly those blocks. */
  lemma {:induction false} BlocksComeApart(blocks: seq<string>, rest: string, m: string)
    requires m != "" && forall n :: 0 <= n < |blocks| ==> Block(blocks[n], m)
    requires !Contains(rest, m)
    ensures Pieces(Concat(blocks) + rest, m) == blocks && Rest(Concat(blocks) + rest, m) == rest
    decreases |blocks|
  {
    if blocks == [] {
      assert Concat(blocks) + rest == rest;
    } else {
      var b, tail := blocks[0], Concat(blocks[1..]) + rest;
      var s := b + tail;
      assert Concat(blocks) + rest == s;
      FirstOccurrence(b, tail, m);
      assert s[..|b|] == b && s[|b|..] == tail;
      BlocksComeApart(blocks[1..], rest, m);
      assert blocks == [b] + blocks[1..];
    }
  }

  /** So splitting a concatenation of certificate blocks returns those blocks, newline-trimmed. */
  lemma SplitOfBlocks(blocks: seq<string>, rest: string)
    requires forall n :: 0 <= n < |blocks| ==> Block(blocks[n], EndBlock)
    requires !Contains(rest, EndBlock)
    ensures SplitCertificates(Concat(blocks) + rest, 0, []) == Cleaned(blocks, TrimNewlines)
  {
    var s := Concat(blocks) + rest;
    assert s[0..] == s;
    SplitIsPieces(s, 0, [], EndBlock, TrimNewlines);
    BlocksComeApart(blocks, rest, EndBlock);
  }

  /** A certificate is its piece without the newlines around it. */
  lemma {:induction false} CertificatesTrimmed(s: string, n: nat) returns (l: nat, r: nat)
    requires n < |Certificates(s)|
    ensures |Certificates(s)| == |Pieces(s, EndBlock)|
    ensures Pieces(s, EndBlock)[n] == Copies('\n', l) + Certificates(s)[n] + Copies('\n', r)
    ensures Certificates(s)[n] != "" ==>
              Certificates(s)[n][0] != '\n' && Certificates(s)[n][|Certificates(s)[n]| - 1] != '\n'
  {
    l, r := TrimParts(Pieces(s, EndBlock)[n], '\n');
  }

  /** Certificate bodies, each with newlines before it. */
  function Padded(ls: seq<nat>, bodies: seq<string>): (r: seq<string>)
    requires |ls| == |bodies|
    ensures |r| == |bodies| && forall n :: 0 <= n < |r| ==> r[n] == Copies('\n', ls[n]) + bodies[n]
  {
    seq(|bodies|, n requires 0 <= n < |bodies| => Copies('\n', ls[n]) + bodies[n])
  }

  lemma {:induction false} TrimPadded(l: nat, body: string)
    requires body != "" && body[0] != '\n' && Block(Copies('\n', l) + body, EndBlock)
    ensures TrimNewlines(Copies('\n', l) + body) == body
  {
    var block := Copies('\n', l) + body;
    var at := |block| - |EndBlock|;
    assert OccursAt(block, EndBlock, at);
    assert block[at..at + |EndBlock|][|EndBlock| - 1] == block[|block| - 1] == body[|body| - 1] == '-';
    TrimLeftOf(l, body, '\n');
  }

  /**
   A bundle of certificates, with any number of newlines before each and anything but an end boundary
   after the last, splits into exactly those certificates.
   */
  lemma {:induction false} SplitOfCertificates(ls: seq<nat>, bodies: seq<string>, rest: string)
    requires |ls| == |bodies| && !Contains(rest, EndBlock)
    requires forall n :: 0 <= n < |bodies| ==> bodies[n] != "" && bodies[n][0] != '\n'
    requires forall n :: 0 <= n < |bodies| ==> Block(Padded(ls, bodies)[n], EndBlock)
    ensures SplitCertificates(Concat(Padded(ls, bodies)) + rest, 0, []) == bodies
  {
    var blocks := Padded(ls, bodies);
    SplitOfBlocks(blocks, rest);
    forall n | 0 <= n < |bodies| ensures Cleaned(blocks, TrimNewlines)[n] == bodies[n] {
      TrimPadded(ls[n], bodies[n]);
    }
  }

  // ------------------------------------------------------------------ several keys

  /** The list that CreatePKCS12TrustStoreFromSecret collects; it passes the list in and appends it again. */
  function Collected(bundles: seq<string>): seq<string> {
    if bundles == [] then []
    else
      var before := Collected(bundles[..|bundles| - 1]);
      before + SplitCertificates(bundles[|bundles| - 1], 0, before)
  }

  /** The loop over the keys. */
  method CollectCertificates(bundles: seq<string>) returns (crts: seq<string>)
    ensures crts == Collected(bundles)
    ensures forall x :: x in crts <==> exists k :: 0 <= k < |bundles| && x in Certificates(bundles[k])
  {
    crts := [];
    for i := 0 to |bundles|
      invariant crts == Collected(bundles[..i])
    {
      assert bundles[..i + 1][..i] == bundles[..i];
      crts := crts + SplitCertificates(bundles[i], 0, crts);
    }
    assert bundles[..|bundles|] == bundles;
    forall x ensures x in crts <==> exists k :: 0 <= k < |bundles| && x in Certificates(bundles[k]) {
      CollectedIsUnion(bundles, x);
      assert forall k :: 0 <= k < |bundles| ==> AllCertificates(bundles)[k] == Certificates(bundles[k]);
    }
  }

  function Pow2(n: nat): nat {
    if n == 0 then 1 else 2 * Pow2(n - 1)
  }

  /** The number of times `x` is in the list. */
  function Count(xs: seq<string>, x: string): nat {
    multiset(xs)[x]
  }

  /** Number k of n is taken 2^(n-1-k) times. */
  function Doubled(counts: seq<nat>): nat {
    if counts == [] then 0 else Times(Pow2(|counts| - 1), counts[0]) + Doubled(counts[1..])
  }

  function Times(a: nat, b: nat): nat {
    a * b
  }

  lemma {:induction false} DoubledSnoc(counts: seq<nat>, c: nat)
    ensures Doubled(counts + [c]) == 2 * Doubled(counts) + c
    decreases |counts|
  {
    var all := counts + [c];
    if counts == [] {
      assert all[1..] == [];
      assert Pow2(0) == 1;
    } else {
      assert all[1..] == counts[1..] + [c] && all[0] == counts[0];
      DoubledSnoc(counts[1..], c);
    }
  }

  /** The same accumulation once the bundles are split: what was there, again, and then the new pieces. */
  function Accumulated(parts: seq<seq<string>>): seq<string> {
    if parts == [] then []
    else
      var before := Accumulated(parts[..|parts| - 1]);
      before + (before + parts[|parts| - 1])
  }

  function AllCertificates(bundles: seq<string>): (r: seq<seq<string>>)
    ensures |r| == |bundles|
  {
    seq(|bundles|, k requires 0 <= k < |bundles| => Certificates(bundles[k]))
  }

  lemma SplitWithBefore(b: string, before: seq<string>)
    ensures SplitCertificates(b, 0, before) == before + Certificates(b)
  {
    assert b[0..] == b;
    SplitIsPieces(b, 0, before, EndBlock, TrimNewlines);
  }

  lemma {:induction false} CollectedIsAccumulated(bundles: seq<string>)
    ensures Collected(bundles) == Accumulated(AllCertificates(bundles))
    decreases |bundles|
  {
    if bundles != [] {
      var n := |bundles| - 1;
      CollectedIsAccumulated(bundles[..n]);
      SplitWithBefore(bundles[n], Collected(bundles[..n]));
      assert AllCertificates(bundles)[..n] == AllCertificates(bundles[..n]);
    }
  }

  /** How often `x` is in each of the lists. */
  function Counts(parts: seq<seq<string>>, x: string): (r: seq<nat>)
    ensures |r| == |parts|
  {
    seq(|parts|, k requires 0 <= k < |parts| => Count(parts[k], x))
  }

  lemma {:induction false} AccumulatedCount(parts: seq<seq<string>>, x: string)
    ensures Count(Accumulated(parts), x) == Doubled(Counts(parts, x))
    decreases |parts|
  {
    if parts != [] {
      var n := |parts| - 1;
      AccumulatedCount(parts[..n], x);
      assert Counts(parts, x) == Counts(parts[..n], x) + [Count(parts[n], x)];
      DoubledSnoc(Counts(parts[..n], x), Count(parts[n], x));
    }
  }

  /** How often a certificate is collected: the pieces of key k, of n keys, appear 2^(n-1-k) times each. */
  lemma CollectedCount(bundles: seq<string>, x: string)
    ensures Count(Collected(bundles), x) == Doubled(Counts(AllCertificates(bundles), x))
  {
    CollectedIsAccumulated(bundles);
    AccumulatedCount(AllCertificates(bundles), x);
  }

  lemma {:induction false} Pow2Positive(n: nat)
    ensures Pow2(n) >= 1
  {
    if n > 0 { Pow2Positive(n - 1); }
  }

  lemma {:induction false} DoubledPositive(counts: seq<nat>)
    ensures Doubled(counts) > 0 <==> exists k :: 0 <= k < |counts| && counts[k] > 0
    decreases |counts|
  {
    if counts != [] {
      Pow2Positive(|counts| - 1);
      DoubledPositive(counts[1..]);
      assert Times(Pow2(|counts| - 1), counts[0]) > 0 <==> counts[0] > 0;
      assert forall k :: 0 < k < |counts| ==> counts[k] == counts[1..][k - 1];
    }
  }

  /** As a set, the list is exactly the union of all keys' certificates. */
  lemma CollectedIsUnion(bundles: seq<string>, x: string)
    ensures x in Collected(bundles) <==> exists k :: 0 <= k < |bundles| && x in AllCertificates(bundles)[k]
  {
    CollectedIsAccumulated(bundles);
    AccumulatedIsUnion(AllCertificates(bundles), x);
  }

  lemma AccumulatedIsUnion(parts: seq<seq<string>>, x: string)
    ensures x in Accumulated(parts) <==> exists k :: 0 <= k < |parts| && x in parts[k]
  {
    AccumulatedCount(parts, x);
    var counts := Counts(parts, x);
    DoubledPositive(counts);
    assert x in Accumulated(parts) <==> Count(Accumulated(parts), x) > 0;
    assert forall k :: 0 <= k < |parts| ==> (counts[k] > 0 <==> x in parts[k]);
  }
}
