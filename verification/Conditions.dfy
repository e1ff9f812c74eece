/** Lists of status conditions, as meta.SetStatusCondition and meta.FindStatusCondition keep them. */
module Conditions {
  import opened Options

  datatype Condition = Condition(kind: string, status: bool, reason: string, message: string)

  predicate Distinct(cs: seq<Condition>) {
    forall i, j :: 0 <= i < j < |cs| ==> cs[i].kind != cs[j].kind
  }

  /** meta.FindStatusCondition */
  function Find(cs: seq<Condition>, kind: string): Option<Condition> {
    if cs == [] then None
    else if cs[0].kind == kind then Some(cs[0])
    else Find(cs[1..], kind)
  }

  /** meta.SetStatusCondition: replace by type, in place, or append. */
  function Set(cs: seq<Condition>, c: Condition): seq<Condition> {
    if cs == [] then [c]
    else if cs[0].kind == c.kind then [c] + cs[1..]
    else [cs[0]] + Set(cs[1..], c)
  }

  predicate IsTrue(cs: seq<Condition>, kind: string) {
    Find(cs, kind).Some? && Find(cs, kind).value.status
  }

  lemma {:induction false} SetFind(cs: seq<Condition>, c: Condition, kind: string)
    ensures Find(Set(cs, c), kind) == if kind == c.kind then Some(c) else Find(cs, kind)
    decreases |cs|
  {
    if cs != [] {
      if cs[0].kind == c.kind {
        assert ([c] + cs[1..])[1..] == cs[1..];
      } else {
        SetFind(cs[1..], c, kind);
        assert Set(cs, c)[1..] == Set(cs[1..], c);
      }
    }
  }

  lemma {:induction false} SetKinds(cs: seq<Condition>, c: Condition, k: Condition)
    requires k in Set(cs, c)
    ensures k == c || k in cs
    decreases |cs|
  {
    if cs != [] && cs[0].kind != c.kind && k != cs[0] {
      SetKinds(cs[1..], c, k);
    }
  }

  lemma {:induction false} SetDistinct(cs: seq<Condition>, c: Condition)
    requires Distinct(cs)
    ensures Distinct(Set(cs, c))
    decreases |cs|
  {
    if cs != [] && cs[0].kind != c.kind {
      SetDistinct(cs[1..], c);
      var rest := Set(cs[1..], c);
      forall j | 0 <= j < |rest| ensures rest[j].kind != cs[0].kind {
        SetKinds(cs[1..], c, rest[j]);
        assert rest[j] == c || exists i :: 1 <= i < |cs| && cs[i] == rest[j];
      }
    }
  }
}
