/**
  The water facts shown on the fact card and the bookkeeping that shows
  each of them once before any repeats.
 */
module Facts {

  /** The facts, in the order the script lists them and character for character:
      the apostrophe of the third one is stored as the three characters
      U+00E2 U+20AC U+2122, as the script file holds it. */
  const FACTS: seq<string> := [
    "785 million people lack access to clean water worldwide.",
    "Every 2 minutes a child dies from water-related diseases.",
    "By 2025, half of the world\U{00E2}\U{20AC}\U{2122}s population may live in water-stressed areas.",
    "Women and children walk an average of 6 km daily to collect water."
  ]

  /** No element occurs twice. */
  predicate Distinct(s: seq<string>)
  {
    forall i, j :: 0 <= i < j < |s| ==> s[i] != s[j]
  }

  /** The used-facts list of one cycle: facts from the list, none twice. */
  predicate UsedOk(facts: seq<string>, used: seq<string>)
  {
    Distinct(used) && (forall f :: f in used ==> f in facts) && |used| <= |facts|
  }

  /** The facts of `facts` not yet in `used`, in their original order. */
  function Available(facts: seq<string>, used: seq<string>): (r: seq<string>)
    ensures forall f :: f in r <==> f in facts && f !in used
    ensures |r| <= |facts|
  {
    if facts == [] then []
    else (if facts[0] in used then [] else [facts[0]]) + Available(facts[1..], used)
  }

  lemma FactsDistinct()
    ensures Distinct(FACTS) && |FACTS| == 4
  {
  }

  /** A sequence without repeats has as many distinct elements as it is long. */
  lemma {:induction false} DistinctCard(s: seq<string>)
    requires Distinct(s)
    ensures |set x | x in s| == |s|
  {
    if s != [] {
      DistinctCard(s[1..]);
      assert (set x | x in s) == {s[0]} + (set x | x in s[1..]);
      assert s[0] !in (set x | x in s[1..]);
    }
  }

  /** A subset is no larger than its superset. */
  lemma {:induction false} SubsetCard(a: set<string>, b: set<string>)
    requires a <= b
    ensures |a| <= |b|
  {
    if a != {} {
      var x :| x in a;
      SubsetCard(a - {x}, b - {x});
    }
  }

  /** While a cycle is not complete some fact is still available. */
  lemma {:induction false} AvailableNonEmpty(facts: seq<string>, used: seq<string>)
    requires Distinct(facts) && UsedOk(facts, used) && |used| < |facts|
    ensures |Available(facts, used)| > 0
  {
    DistinctCard(facts);
    DistinctCard(used);
    var all := set x | x in facts;
    var seen := set x | x in used;
    if all <= seen {
      SubsetCard(all, seen);
      assert false;
    }
    var f :| f in all && f !in seen;
    assert f in Available(facts, used);
  }

  /** Recording a fact of the list that is not yet used keeps the list of
      used facts well formed. */
  lemma RecordKeepsUsedOk(facts: seq<string>, used: seq<string>, fact: string)
    requires UsedOk(facts, used) && |used| < |facts| && fact in facts && fact !in used
    ensures UsedOk(facts, used + [fact])
  {
    var u := used + [fact];
    assert forall i :: 0 <= i < |used| ==> u[i] == used[i];
  }

  /** A complete cycle has shown every fact. */
  lemma {:induction false} FullCycleShowsEveryFact(facts: seq<string>, used: seq<string>)
    requires Distinct(facts) && UsedOk(facts, used) && |used| == |facts|
    ensures forall f :: f in facts ==> f in used
  {
    DistinctCard(facts);
    DistinctCard(used);
    var all := set x | x in facts;
    var seen := set x | x in used;
    forall f | f in facts
      ensures f in used
    {
      if f !in used {
        assert seen <= all - {f};
        SubsetCard(seen, all - {f});
        assert false;
      }
    }
  }

  /** The used list a new pick starts from: the cycle starts over once
      every fact has been used. */
  function Cycle(facts: seq<string>, used: seq<string>): (c: seq<string>)
  {
    if |used| == |facts| then [] else used
  }

  /** The fact a sample `r` in [0, 1) picks after `used`: the cycle starts
      over when complete, then the sample, scaled by the number of facts not
      yet in the cycle and rounded down, indexes those facts in list order.
      The fact is new to the cycle and recording it keeps the list well
      formed. */
  function NextFact(facts: seq<string>, used: seq<string>, r: real): (f: string)
    requires Distinct(facts) && UsedOk(facts, used) && |facts| > 0 && 0.0 <= r < 1.0
    ensures f in facts && f !in Cycle(facts, used)
    ensures UsedOk(facts, Cycle(facts, used) + [f])
  {
    var cycle := Cycle(facts, used);
    AvailableNonEmpty(facts, cycle);
    var a := Available(facts, cycle);
    RecordKeepsUsedOk(facts, cycle, a[Pick(r, |a|)]);
    a[Pick(r, |a|)]
  }

  /** The used list after one pick with sample `r`. */
  function Record(facts: seq<string>, used: seq<string>, r: real): (u: seq<string>)
    requires Distinct(facts) && UsedOk(facts, used) && |facts| > 0 && 0.0 <= r < 1.0
  {
    Cycle(facts, used) + [NextFact(facts, used, r)]
  }

  /** The index a sample in [0, 1) picks among `n` choices: the sample scaled
      by `n` and rounded down, which is always a valid index. */
  function Pick(r: real, n: nat): (k: nat)
    requires 0.0 <= r < 1.0 && n > 0
    ensures k < n
  {
    var m := n as real;
    assert m - r * m == (1.0 - r) * m;
    assert (1.0 - r) * m > 0.0;
    assert r * m >= 0.0;
    (r * m).Floor
  }
}
