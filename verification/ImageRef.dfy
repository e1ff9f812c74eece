/**
 Image references (core/framework/image.go): the pattern that takes "domain/namespace/name:tag" apart,
 and printing and parsing.  A plain left-to-right scanner is shown to find exactly the submatches that
 leftmost-first matching of the pattern finds, on every input the pattern is applied to.
 */
module ImageRef {
  import opened Options
  import opened Regex
  import opened Strings

  // ------------------------------------------------------------------ the pattern

  const Alnum: Class := Or(Range('a', 'z'), Range('0', '9'))

  function Is(c: char): Class {
    Range(c, c)
  }

  /** The characters of the first domain segment, and of the second. */
  const HostChars: Class := Or(Or(Alnum, Is(':')), Or(Is('.'), Or(Is('-'), Is('_'))))
  const PathChars: Class := Or(Alnum, Or(Or(Is('.'), Is('_')), Is('-')))

  /** [a-z0-9]?:{0,1}\.?-?_? */
  const HostPiece: Re :=
    Cat(Opt(Char(Alnum)), Cat(Opt(Char(Is(':'))), Cat(Opt(Char(Is('.'))), Cat(Opt(Char(Is('-'))), Opt(Char(Is('_')))))))

  /** [a-z0-9]|[._]|__|[-]* */
  const PathPiece: Re :=
    Alt(Char(Alnum), Alt(Char(Or(Is('.'), Is('_'))), Alt(Cat(Char(Is('_')), Char(Is('_'))), Star(Char(Is('-'))))))

  const Slash: Re := Char(Is('/'))
  const HostPart: Re := Cat(Plus(HostPiece), Slash)
  const PathPart: Re := Cat(Plus(PathPiece), Slash)
  const DomainRe: Re := Cat(HostPart, Opt(PathPart))
  const ImageRe: Re := Plus(Char(Not(':')))
  const TagRe: Re := Cat(Char(Is(':')), Plus(Char(Not('\n'))))

  /** The ends of the three groups; groups one and three are optional and may be empty. */
  datatype Match = Match(domain: nat, image: nat, tag: nat)

  /** (?P<tag>:.+)? after the first two groups */
  function TagMatches(s: string, d: nat, e: nat, ts: seq<nat>): seq<Match> {
    if ts == [] then [Match(d, e, e)] else [Match(d, e, ts[0])] + TagMatches(s, d, e, ts[1..])
  }

  /** (?P<image>[^:]+) from the end of the domain group */
  function ImageMatches(s: string, d: nat, es: seq<nat>): seq<Match>
    requires Bounded(es, d, |s|)
  {
    if es == [] then []
    else TagMatches(s, d, es[0], Ends(TagRe, s, es[0])) + ImageMatches(s, d, es[1..])
  }

  function DomainMatches(s: string, ds: seq<nat>): seq<Match>
    requires Bounded(ds, 0, |s|)
  {
    if ds == [] then []
    else ImageMatches(s, ds[0], Ends(ImageRe, s, ds[0])) + DomainMatches(s, ds[1..])
  }

  /** Every match of the whole pattern from the start of `s`, in search order; the domain comes last as absent. */
  function Matches(s: string): seq<Match> {
    DomainMatches(s, Ends(DomainRe, s, 0) + [0])
  }

  // ------------------------------------------------------------------ the scanner

  /** A run of the class and a slash. */
  function Segment(s: string, i: nat, k: Class): (r: Option<nat>)
    requires i <= |s|
    ensures r.Some? ==> i < r.value <= |s|
  {
    var e := RunEnd(s, i, k);
    if e < |s| && s[e] == '/' then Some(e + 1) else None
  }

  predicate NameAt(s: string, i: nat) {
    i < |s| && s[i] != ':'
  }

  /** Two segments if a name follows, else one if a name follows, else none. */
  function ScanDomain(s: string): (d: nat)
    ensures d <= |s|
  {
    match Segment(s, 0, HostChars)
    case None => 0
    case Some(j) =>
      match Segment(s, j, PathChars)
      case Some(k) => if NameAt(s, k) then k else if NameAt(s, j) then j else 0
      case None => if NameAt(s, j) then j else 0
  }

  function ScanTag(s: string, e: nat): (t: nat)
    requires e <= |s|
    ensures e <= t <= |s|
  {
    if e + 1 < |s| && s[e] == ':' && s[e + 1] != '\n' then RunEnd(s, e + 1, Not('\n')) else e
  }

  function Scan(s: string): (m: Match)
    ensures m.domain <= m.image <= m.tag <= |s|
  {
    FromDomain(s, ScanDomain(s))
  }

  // ------------------------------------------------------------------ scanner and pattern agree

  /** A piece that matches nothing or characters of the class, and can match each of them alone. */
  ghost predicate PieceOf(piece: Re, k: Class) {
    && Uses(piece, k) && Nullable(piece) && !In('/', k)
    && forall c :: In(c, k) ==> Eats(piece, c)
  }

  lemma IsOnly(c: char, a: char, b: char)
    ensures In(c, Or(Is(a), Is(b))) <==> c == a || c == b
  {
    assert In(c, Is(a)) <==> c as int == a as int;
    assert In(c, Is(b)) <==> c as int == b as int;
  }

  lemma HostPieceFacts()
    ensures PieceOf(HostPiece, HostChars)
  {
    var p5 := Opt(Char(Is('_')));
    var p4 := Cat(Opt(Char(Is('-'))), p5);
    var p3 := Cat(Opt(Char(Is('.'))), p4);
    var p2 := Cat(Opt(Char(Is(':'))), p3);
    forall c ensures In(c, HostChars) <==> In(c, Alnum) || c == ':' || c == '.' || c == '-' || c == '_' {
      assert In(c, Or(Alnum, Is(':'))) <==> In(c, Alnum) || c == ':';
      IsOnly(c, '-', '_');
      assert In(c, Or(Is('.'), Or(Is('-'), Is('_')))) <==> c == '.' || In(c, Or(Is('-'), Is('_')));
    }
    assert Uses(p4, HostChars) && Uses(p3, HostChars) && Uses(p2, HostChars);
    assert Nullable(p4) && Nullable(p3) && Nullable(p2);
    forall c ensures Eats(HostPiece, c) <== In(c, Alnum) || c == ':' || c == '.' || c == '-' || c == '_' {
      assert Eats(p4, c) <== c == '-' || c == '_';
      assert Eats(p3, c) <== c == '.' || c == '-' || c == '_';
      assert Eats(p2, c) <== c == ':' || c == '.' || c == '-' || c == '_';
    }
  }

  lemma PathPieceFacts()
    ensures PieceOf(PathPiece, PathChars)
  {
    var q4 := Star(Char(Is('-')));
    var q3 := Alt(Cat(Char(Is('_')), Char(Is('_'))), q4);
    var q2 := Alt(Char(Or(Is('.'), Is('_'))), q3);
    forall c ensures In(c, PathChars) <==> In(c, Alnum) || c == '.' || c == '_' || c == '-' {
      IsOnly(c, '.', '_');
      assert In(c, Or(Or(Is('.'), Is('_')), Is('-'))) <==> In(c, Or(Is('.'), Is('_'))) || c == '-';
    }
    assert Uses(Cat(Char(Is('_')), Char(Is('_'))), PathChars);
    assert Uses(Char(Or(Is('.'), Is('_'))), PathChars) by {
      forall c | In(c, Or(Is('.'), Is('_'))) ensures In(c, PathChars) { IsOnly(c, '.', '_'); }
    }
    assert Uses(q4, PathChars) && Uses(q3, PathChars) && Uses(q2, PathChars);
    assert Nullable(q3) && Nullable(q2);
    forall c ensures Eats(PathPiece, c) <== In(c, Alnum) || c == '.' || c == '_' || c == '-' {
      assert Eats(q3, c) <== c == '-';
      assert Eats(q2, c) <== c == '.' || c == '_' || c == '-';
    }
  }

  lemma SlashEnds(s: string, m: nat, j: nat)
    requires m <= |s| && j in Ends(Slash, s, m)
    ensures m < |s| && s[m] == '/' && j == m + 1
  {
  }

  lemma PlusOver(piece: Re, k: Class, s: string, i: nat, m: nat)
    requires i <= |s| && Uses(piece, k) && m in Ends(Plus(piece), s, i)
    ensures i <= m <= |s| && Over(s, i, m, k)
  {
    EndsOver(Plus(piece), s, i, k);
    var ms := Ends(Plus(piece), s, i);
    var x :| 0 <= x < |ms| && ms[x] == m;
  }

  lemma CatMiddle(a: Re, b: Re, s: string, i: nat, j: nat) returns (m: nat)
    requires i <= |s| && j in Ends(Cat(a, b), s, i)
    ensures i <= m <= |s| && m in Ends(a, s, i) && j in Ends(b, s, m)
  {
    var ms := Ends(a, s, i);
    EndsFromOnly(b, s, i, ms, j);
    m :| m in ms && j in Ends(b, s, m);
  }

  lemma {:induction false} PartEndsOnly(piece: Re, k: Class, s: string, i: nat, j: nat)
    requires i <= |s| && Uses(piece, k) && !In('/', k) && j in Ends(Cat(Plus(piece), Slash), s, i)
    ensures Segment(s, i, k) == Some(j)
  {
    var m := CatMiddle(Plus(piece), Slash, s, i, j);
    PlusOver(piece, k, s, i, m);
    SlashEnds(s, m, j);
    RunEndUnique(s, i, k, m);
  }

  lemma PartEndsFound(piece: Re, k: Class, s: string, i: nat)
    requires i <= |s| && PieceOf(piece, k) && Segment(s, i, k).Some?
    ensures Segment(s, i, k).value in Ends(Cat(Plus(piece), Slash), s, i)
  {
    var e := RunEnd(s, i, k);
    PlusEats(piece, s, i, e);
    assert Ends(Slash, s, e) == [e + 1];
    EndsFromHas(Slash, s, i, Ends(Plus(piece), s, i), e, e + 1);
  }

  /** All ways to match a segment end at the same place, the one the scanner finds. */
  lemma PartEnds(piece: Re, k: Class, s: string, i: nat)
    requires i <= |s| && PieceOf(piece, k)
    ensures var js := Ends(Cat(Plus(piece), Slash), s, i);
            match Segment(s, i, k)
            case None => js == []
            case Some(e) => js != [] && forall n :: 0 <= n < |js| ==> js[n] == e
  {
    var js := Ends(Cat(Plus(piece), Slash), s, i);
    if Segment(s, i, k).Some? {
      forall n | 0 <= n < |js| ensures Segment(s, i, k) == Some(js[n]) {
        assert js[n] in js;
        PartEndsOnly(piece, k, s, i, js[n]);
      }
      PartEndsFound(piece, k, s, i);
    } else if js != [] {
      assert js[0] in js;
      PartEndsOnly(piece, k, s, i, js[0]);
    }
  }

  lemma {:induction false} OptionalPart(re: Re, s: string, i: nat, js: seq<nat>, e: nat)
    requires Bounded(js, i, |s|) && i <= e <= |s| && forall n :: 0 <= n < |js| ==> js[n] == e
    ensures forall j :: j in EndsFrom(re, s, i, js) ==> j in Ends(re, s, e)
    ensures js != [] ==> Ends(re, s, e) <= EndsFrom(re, s, i, js)
    decreases |js|
  {
    if js != [] { OptionalPart(re, s, i, js[1..], e); }
  }

  lemma {:induction false} TagHead(s: string, d: nat, e: nat)
    requires e <= |s|
    ensures var ms := TagMatches(s, d, e, Ends(TagRe, s, e)); ms != [] && ms[0] == Match(d, e, ScanTag(s, e))
  {
    var js := Ends(Char(Is(':')), s, e);
    if e < |s| && s[e] == ':' {
      assert js == [e + 1] && js[1..] == [];
      PlusHead(s, e + 1, Not('\n'));
      assert Ends(TagRe, s, e) == Ends(Plus(Char(Not('\n'))), s, e + 1) + [];
    } else {
      assert js == [];
      assert Ends(TagRe, s, e) == [];
    }
  }

  /** The greedy name and then the greedy tag from a domain end. */
  function FromDomain(s: string, d: nat): (m: Match)
    requires d <= |s|
    ensures m.domain == d <= m.image <= m.tag <= |s|
  {
    var e := RunEnd(s, d, Not(':'));
    Match(d, e, ScanTag(s, e))
  }

  /** From a fixed domain end: no match, or the greedy one comes first. */
  lemma ImageHead(s: string, d: nat)
    requires d <= |s|
    ensures var ms := ImageMatches(s, d, Ends(ImageRe, s, d));
            if NameAt(s, d) then ms != [] && ms[0] == FromDomain(s, d) else ms == []
  {
    PlusHead(s, d, Not(':'));
    if NameAt(s, d) {
      TagHead(s, d, RunEnd(s, d, Not(':')));
    }
  }

  lemma DomainMatchesStep(s: string, ds: seq<nat>)
    requires Bounded(ds, 0, |s|) && ds != []
    ensures if NameAt(s, ds[0]) then DomainMatches(s, ds) != [] && DomainMatches(s, ds)[0] == FromDomain(s, ds[0])
            else DomainMatches(s, ds) == DomainMatches(s, ds[1..])
  {
    ImageHead(s, ds[0]);
  }

  /** The first match comes from the first domain end that leaves room for a name. */
  lemma {:induction false} FirstDomain(s: string, ds: seq<nat>, n: nat)
    requires Bounded(ds, 0, |s|) && n < |ds| && NameAt(s, ds[n])
    requires forall x :: 0 <= x < n ==> !NameAt(s, ds[x]) || ds[x] == ds[n]
    ensures DomainMatches(s, ds) != [] && DomainMatches(s, ds)[0] == FromDomain(s, ds[n])
    decreases n
  {
    DomainMatchesStep(s, ds);
    if !NameAt(s, ds[0]) {
      SkipFirst(s, ds, n);
      FirstDomain(s, ds[1..], n - 1);
    }
  }

  /** The hypotheses of FirstDomain hold of the other candidates when no name follows the first. */
  lemma SkipFirst(s: string, ds: seq<nat>, n: nat)
    requires Bounded(ds, 0, |s|) && n < |ds| && NameAt(s, ds[n]) && !NameAt(s, ds[0])
    requires forall x :: 0 <= x < n ==> !NameAt(s, ds[x]) || ds[x] == ds[n]
    ensures 0 < n && Bounded(ds[1..], 0, |s|) && ds[1..][n - 1] == ds[n]
    ensures forall x :: 0 <= x < n - 1 ==> !NameAt(s, ds[1..][x]) || ds[1..][x] == ds[n]
  {
    assert forall x :: 0 <= x < n - 1 ==> ds[1..][x] == ds[x + 1];
  }

  predicate DomainOrder(js: seq<nat>, s: string, hk: Class, pk: Class) {
    match Segment(s, 0, hk)
    case None => js == []
    case Some(j) =>
      && j in js
      && match Segment(s, j, pk)
         case None => js[0] == j && forall x :: x in js ==> x == j
         case Some(k) => js[0] == k && forall x :: x in js ==> x == k || x == j
  }

  /** The domain ends in search order: two segments, then one. */
  lemma TwoParts(host: Re, hk: Class, path: Re, pk: Class, s: string)
    requires PieceOf(host, hk) && PieceOf(path, pk)
    ensures DomainOrder(Ends(Cat(Cat(Plus(host), Slash), Opt(Cat(Plus(path), Slash))), s, 0), s, hk, pk)
  {
    PartEnds(host, hk, s, 0);
    var part := Cat(Plus(path), Slash);
    var hs := Ends(Cat(Plus(host), Slash), s, 0);
    match Segment(s, 0, hk)
    case None =>
    case Some(j) =>
      PartEnds(path, pk, s, j);
      var ps := Ends(part, s, j);
      assert Ends(Opt(part), s, j) == ps + [j];
      OptionalPart(Opt(part), s, 0, hs, j);
      assert (ps + [j])[|ps|] == j;
      assert forall x :: x in ps + [j] ==> x in ps || x == j;
  }

  /** Given the order of the domain ends, the first match is the scanner's. */
  lemma ScanFromOrder(s: string, js: seq<nat>)
    requires NameAt(s, 0) && Bounded(js, 0, |s|) && DomainOrder(js, s, HostChars, PathChars)
    ensures DomainMatches(s, js + [0]) != [] && DomainMatches(s, js + [0])[0] == Scan(s)
  {
    var ds := js + [0];
    var d := ScanDomain(s);
    if d == 0 {
      forall x | 0 <= x < |js| ensures !NameAt(s, ds[x]) || ds[x] == 0 {
        assert js[x] in js && ds[x] == js[x];
      }
      FirstDomain(s, ds, |js|);
    } else if d == js[0] {
      FirstDomain(s, ds, 0);
    } else {
      var n :| 0 <= n < |js| && js[n] == d;
      forall x | 0 <= x < n ensures !NameAt(s, ds[x]) || ds[x] == d {
        assert js[x] in js && ds[x] == js[x];
      }
      FirstDomain(s, ds, n);
    }
  }

  /** The scanner finds what leftmost-first matching finds, and the pattern always matches at the start. */
  lemma ScanIsLeftmostFirst(s: string)
    requires NameAt(s, 0)
    ensures Matches(s) != [] && Matches(s)[0] == Scan(s)
  {
    HostPieceFacts();
    PathPieceFacts();
    TwoParts(HostPiece, HostChars, PathPiece, PathChars, s);
    ScanFromOrder(s, Ends(DomainRe, s, 0));
  }

  // ------------------------------------------------------------------ printing and parsing

  datatype Image = Image(domain: string, name: string, tag: string)

  const Latest := "latest"

  /** ConvertImageToImageTag */
  function Print(img: Image): string {
    (if img.domain != "" then img.domain + "/" else "") + img.name + (if img.tag != "" then ":" + img.tag else "")
  }

  function WithoutColons(s: string): (r: string)
    ensures ':' !in r
    ensures ':' !in s ==> r == s
  {
    if s == "" then ""
    else
      assert s == [s[0]] + s[1..];
      (if s[0] == ':' then "" else [s[0]]) + WithoutColons(s[1..])
  }

  lemma WithoutColonsCons(s: string)
    requires s != ""
    ensures s[0] == ':' ==> WithoutColons(s) == WithoutColons(s[1..])
    ensures s[0] != ':' ==> WithoutColons(s) == [s[0]] + WithoutColons(s[1..])
  {
  }

  /** The colons go and everything else stays, in its order. */
  lemma {:induction false} WithoutColonsSplit(a: string, b: string)
    ensures WithoutColons(a + ":" + b) == WithoutColons(a) + WithoutColons(b)
    decreases |a|
  {
    var s := a + ":" + b;
    if a == "" {
      assert s[1..] == b;
    } else {
      WithoutColonsSplit(a[1..], b);
      assert s[0] == a[0] && s[1..] == a[1..] + ":" + b;
      WithoutColonsCons(s);
      WithoutColonsCons(a);
      Regroup([a[0]], WithoutColons(a[1..]), WithoutColons(b));
    }
  }

  function Cut(s: string, m: Match): Image
    requires m.domain <= m.image <= m.tag <= |s|
  {
    Image(if m.domain > 0 then TrimRight(s[..m.domain], '/') else "",
          s[m.domain..m.image],
          WithoutColons(s[m.image..m.tag]))
  }

  /** splitImageTag: the submatches of the first match of the pattern, or the tag of ":tag". */
  function SplitImage(s: string): Image {
    if s == "" then Image("", "", "")
    else if s[0] == ':' then
      assert |Split(s, ':')| == 1 + |Split(s[1..], ':')|;
      Image("", "", Split(s, ':')[1])
    else
      ScanIsLeftmostFirst(s);
      Cut(s, Matches(s)[0])
  }

  function OrLatest(tag: string): string {
    if tag == "" then Latest else tag
  }

  /** SplitImageTag and ConvertImageTagToImage */
  function Parse(s: string): Image {
    var img := SplitImage(s);
    if s == "" then img else img.(tag := OrLatest(img.tag))
  }

  /** The same by the scanner, without the pattern. */
  function ScanImage(s: string): Image {
    var img := Cut(s, Scan(s));
    img.(tag := OrLatest(img.tag))
  }

  lemma ParseByScanner(s: string)
    requires NameAt(s, 0)
    ensures Parse(s) == ScanImage(s)
  {
    ScanIsLeftmostFirst(s);
  }

  lemma TagOfJustTag(s: string)
    requires s != "" && s[0] == ':'
    ensures |Split(s, ':')| > 1 && ':' !in Split(s, ':')[1]
  {
    SplitParts(s, ':');
  }

  lemma {:induction false} ScanImageParts(s: string)
    ensures ':' !in ScanImage(s).name && ':' !in ScanImage(s).tag && ScanImage(s).tag != ""
  {
  }

  lemma {:induction false} JustTagParts(s: string)
    requires s != "" && s[0] == ':'
    ensures Parse(s).name == "" && ':' !in Parse(s).tag && Parse(s).tag != ""
  {
    TagOfJustTag(s);
  }

  /** A tag alone is read as that tag. */
  lemma JustTag(t: string)
    requires t != "" && ':' !in t
    ensures Parse(":" + t) == Image("", "", t)
  {
    SplitPair("", ':', t);
    assert "" + [':'] + t == ":" + t;
  }

  /** Whatever is parsed, the name and the tag hold no colon, and a non-empty reference has a tag. */
  lemma {:induction false} ParsedParts(s: string)
    ensures ':' !in Parse(s).name && ':' !in Parse(s).tag
    ensures s != "" ==> Parse(s).tag != ""
  {
    if s == "" {
      assert Parse(s) == Image("", "", "");
    } else if s[0] == ':' {
      JustTagParts(s);
    } else {
      ParseByScanner(s);
      ScanImageParts(s);
    }
  }

  predicate AllIn(s: string, k: Class) {
    Over(s, 0, |s|, k)
  }

  predicate LeadingColon(s: string) {
    s != "" && s[0] == ':'
  }

  predicate Hosts(h: string) {
    AllIn(h, HostChars) && !LeadingColon(h)
  }

  /** Nothing, one segment, or two segments of the characters the pattern allows. */
  ghost predicate DomainSpelled(d: string) {
    || AllIn(d, HostChars)
    || exists h, p :: d == h + "/" + p && AllIn(h, HostChars) && p != "" && AllIn(p, PathChars)
  }

  /** The same, and not taken for a tag without a name. */
  ghost predicate DomainOk(d: string) {
    || Hosts(d)
    || exists h, p :: d == h + "/" + p && Hosts(h) && p != "" && AllIn(p, PathChars)
  }

  lemma SpelledOk(d: string)
    requires DomainSpelled(d) && !LeadingColon(d)
    ensures DomainOk(d)
  {
    if !AllIn(d, HostChars) {
      var h, p :| d == h + "/" + p && AllIn(h, HostChars) && p != "" && AllIn(p, PathChars);
      assert h != "" ==> d[0] == h[0];
      assert Hosts(h);
    }
  }

  /** Made of the characters the pattern allows. */
  ghost predicate Spelled(img: Image) {
    && DomainSpelled(img.domain)
    && img.name != "" && ':' !in img.name && '/' !in img.name
    && '/' !in img.tag && '\n' !in img.tag
  }

  ghost predicate WellFormed(img: Image) {
    && DomainOk(img.domain)
    && img.name != "" && ':' !in img.name && '/' !in img.name
    && '/' !in img.tag && '\n' !in img.tag
  }

  /** "name" or "name:tag" */
  function Tail(name: string, tag: string): string {
    name + (if tag != "" then ":" + tag else "")
  }

  lemma SegmentAt(s: string, i: nat, k: Class, w: string)
    requires i + |w| < |s| && s[i..i + |w|] == w && AllIn(w, k) && s[i + |w|] == '/' && !In('/', k)
    ensures Segment(s, i, k) == Some(i + |w| + 1)
  {
    forall x | i <= x < i + |w| ensures In(s[x], k) {
      assert s[x] == w[x - i];
    }
    RunEndUnique(s, i, k, i + |w|);
  }

  lemma SlashIsNoDomainChar()
    ensures !In('/', HostChars) && !In('/', PathChars)
  {
    HostPieceFacts();
    PathPieceFacts();
  }

  lemma OneSegment(s: string, h: string, rest: string)
    requires s == h + "/" + rest && AllIn(h, HostChars) && '/' !in rest && NameAt(rest, 0)
    ensures ScanDomain(s) == |h| + 1
  {
    SlashIsNoDomainChar();
    SegmentAt(s, 0, HostChars, h);
    assert s[|h| + 1..] == rest && s[|h| + 1] == rest[0];
  }

  lemma TwoSegments(s: string, h: string, p: string, rest: string)
    requires s == h + "/" + p + "/" + rest && AllIn(h, HostChars) && AllIn(p, PathChars) && NameAt(rest, 0)
    ensures ScanDomain(s) == |h| + |p| + 2
  {
    SlashIsNoDomainChar();
    SegmentAt(s, 0, HostChars, h);
    SegmentAt(s, |h| + 1, PathChars, p);
    assert s[|h| + |p| + 2] == rest[0];
  }

  /** A domain the pattern allows is found whole. */
  lemma DomainFound(s: string, domain: string, rest: string)
    requires DomainOk(domain) && '/' !in rest && NameAt(rest, 0)
    requires s == if domain == "" then rest else domain + "/" + rest
    ensures ScanDomain(s) == (if domain == "" then 0 else |domain| + 1) && NameAt(s, 0)
  {
    if domain == "" {
      assert s == rest == s[0..];
    } else if Hosts(domain) {
      OneSegment(s, domain, rest);
    } else {
      var h, p :| domain == h + "/" + p && Hosts(h) && p != "" && AllIn(p, PathChars);
      TwoSegments(s, h, p, rest);
      assert s[0] == if h == "" then '/' else h[0];
    }
  }

  lemma TrimDomain(domain: string)
    requires domain != "" && DomainOk(domain)
    ensures TrimRight(domain + "/", '/') == domain
  {
    SlashIsNoDomainChar();
    assert (domain + "/")[..|domain|] == domain;
    var last := domain[|domain| - 1];
    if Hosts(domain) {
      assert In(last, HostChars);
    } else {
      var h, p :| domain == h + "/" + p && Hosts(h) && p != "" && AllIn(p, PathChars);
      assert last == p[|p| - 1] && In(p[|p| - 1], PathChars);
    }
    assert last != '/';
  }

  /** From the end of the domain on, name and tag are found whole. */
  lemma {:induction false} TailFound(s: string, d: nat, name: string, tag: string)
    requires d <= |s| && s[d..] == Tail(name, tag)
    requires name != "" && ':' !in name && '\n' !in tag
    ensures RunEnd(s, d, Not(':')) == d + |name| && ScanTag(s, d + |name|) == |s|
    ensures s[d..d + |name|] == name && s[d + |name|..|s|] == if tag == "" then "" else ":" + tag
  {
    var rest := Tail(name, tag);
    assert forall x :: d <= x < |s| ==> s[x] == rest[x - d];
    forall x | d <= x < d + |name| ensures In(s[x], Not(':')) {
      assert s[x] == name[x - d];
    }
    RunEndUnique(s, d, Not(':'), d + |name|);
    if tag != "" {
      var e := d + |name|;
      forall x | e + 1 <= x < |s| ensures In(s[x], Not('\n')) {
        assert s[x] == tag[x - e - 1];
      }
      RunEndUnique(s, e + 1, Not('\n'), |s|);
      assert s[e + 1] == tag[0];
    }
  }

  lemma WithoutColonsTag(tag: string)
    ensures WithoutColons(":" + tag) == WithoutColons(tag)
  {
    WithoutColonsSplit("", tag);
    assert "" + ":" + tag == ":" + tag && WithoutColons("") + WithoutColons(tag) == WithoutColons(tag);
  }

  /** What is cut out at the right places are the three parts. */
  lemma {:induction false} CutParts(s: string, d: nat, e: nat, domain: string, name: string, tag: string)
    requires d <= e <= |s| && s[d..e] == name && s[e..|s|] == (if tag == "" then "" else ":" + tag)
    requires if d == 0 then domain == "" else TrimRight(s[..d], '/') == domain
    ensures Cut(s, Match(d, e, |s|)) == Image(domain, name, WithoutColons(tag))
  {
    WithoutColonsTag(tag);
  }

  lemma PrintParts(img: Image)
    requires img.name != "" && ':' !in img.name && '/' !in img.name && '/' !in img.tag
    ensures var s, rest := Print(img), Tail(img.name, img.tag);
            var d := if img.domain == "" then 0 else |img.domain| + 1;
            && s == (if img.domain == "" then rest else img.domain + "/" + rest)
            && d <= |s| && s[d..] == rest && (d > 0 ==> s[..d] == img.domain + "/")
            && '/' !in rest && NameAt(rest, 0)
  {
    var rest := Tail(img.name, img.tag);
    assert rest[0] == img.name[0] && img.name[0] in img.name;
  }

  lemma {:induction false} FromDomainParts(s: string, d: nat, domain: string, name: string, tag: string)
    requires d <= |s| && s[d..] == Tail(name, tag) && name != "" && ':' !in name && '\n' !in tag
    requires if d == 0 then domain == "" else TrimRight(s[..d], '/') == domain
    ensures Cut(s, FromDomain(s, d)) == Image(domain, name, WithoutColons(tag))
  {
    var e := d + |name|;
    TailFound(s, d, name, tag);
    assert FromDomain(s, d) == Match(d, e, |s|);
    CutParts(s, d, e, domain, name, tag);
  }

  lemma CutOfScan(s: string, m: Match)
    requires Scan(s) == m
    ensures ScanImage(s) == Cut(s, m).(tag := OrLatest(Cut(s, m).tag))
  {
  }

  lemma {:induction false} PrintThenScan(img: Image)
    requires WellFormed(img)
    ensures NameAt(Print(img), 0)
    ensures ScanImage(Print(img)) == img.(tag := OrLatest(WithoutColons(img.tag)))
  {
    PrintParts(img);
    DomainFound(Print(img), img.domain, Tail(img.name, img.tag));
    var d := if img.domain == "" then 0 else |img.domain| + 1;
    if img.domain != "" { TrimDomain(img.domain); }
    FromDomainParts(Print(img), d, img.domain, img.name, img.tag);
    CutOfScan(Print(img), FromDomain(Print(img), d));
  }

  /** Parsing what was printed gives the image back, less the colons of its tag; no tag becomes "latest". */
  lemma {:induction false} PrintThenParse(img: Image)
    requires WellFormed(img)
    ensures Parse(Print(img)) == img.(tag := OrLatest(WithoutColons(img.tag)))
    ensures img.tag == "" ==> Parse(Print(img)).tag == "latest"
  {
    PrintThenScan(img);
    ParseByScanner(Print(img));
  }

  lemma LeadingColonLoses(img: Image)
    requires LeadingColon(img.domain) && img.name != ""
    ensures Parse(Print(img)).name == "" && img.name != ""
  {
    assert Print(img)[0] == ':';
    JustTagParts(Print(img));
  }

  /** For every image of the pattern's characters the round trip is exact just when no colon begins the domain or is in the tag. */
  lemma {:induction false} RoundTripIff(img: Image)
    requires Spelled(img)
    ensures Parse(Print(img)) == img.(tag := OrLatest(img.tag)) <==> !LeadingColon(img.domain) && ':' !in img.tag
  {
    if LeadingColon(img.domain) {
      LeadingColonLoses(img);
    } else {
      SpelledOk(img.domain);
      PrintThenParse(img);
      PlainTag(img.tag);
    }
  }

  lemma PlainTag(tag: string)
    ensures OrLatest(WithoutColons(tag)) == OrLatest(tag) <==> ':' !in tag
  {
    assert ':' !in OrLatest(WithoutColons(tag));
  }

  /** Behind a given domain and name, the tag can be read off. */
  lemma PrintedTag(domain: string, name: string, t: string, u: string)
    requires Print(Image(domain, name, t)) == Print(Image(domain, name, u))
    ensures t == u
  {
    var head := (if domain != "" then domain + "/" else "") + name;
    var x, y := if t != "" then ":" + t else "", if u != "" then ":" + u else "";
    assert (head + x)[|head|..] == x && (head + y)[|head|..] == y;
    assert x == y;
    assert t != "" ==> x[1..] == t;
    assert u != "" ==> y[1..] == u;
  }

  /** Two well-formed images that print alike are the same image, whatever their tags. */
  lemma PrintInjective(a: Image, b: Image)
    requires WellFormed(a) && WellFormed(b) && Print(a) == Print(b)
    ensures a == b
  {
    assert a.domain == b.domain && a.name == b.name by {
      PrintThenScan(a);
      PrintThenScan(b);
    }
    PrintedTag(a.domain, a.name, a.tag, b.tag);
  }
}
