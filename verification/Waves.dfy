/** The wave scheduler: names grouped into waves, each wave after everything it needs. */
module Waves {
  import opened NeedsGraph
  import opened Text

  /** What Waves answers: the waves in order, or the names left when nothing is ready. */
  datatype Outcome = Ordered(waves: seq<seq<string>>) | Cycle(names: seq<string>)

  datatype RepoCheckout = RepoCheckout(name: string, path: string, sha: string, needs: seq<string>)

  datatype Target = Target(alias: string, binary: string, args: seq<string>, runIn: seq<string>)

  ghost function CheckoutsDeclare(repos: seq<RepoCheckout>): seq<Declared> {
    seq(|repos|, i requires 0 <= i < |repos| => Declared(repos[i].name, repos[i].needs))
  }

  /** Some need of a named repo is another named repo. */
  predicate AnyEdge(names: seq<string>, needs: Needs) {
    exists a, b :: a in names && b in names && Edge(needs, a, b)
  }

  /** The entries of s that are in keep, in the order and as often as s lists them. */
  ghost function Select(s: seq<string>, keep: set<string>): seq<string> {
    if s == [] then []
    else
      var front := Select(s[..|s| - 1], keep);
      if s[|s| - 1] in keep then front + [s[|s| - 1]] else front
  }

  function Flatten(waves: seq<seq<string>>): seq<string> {
    if waves == [] then [] else Flatten(waves[..|waves| - 1]) + waves[|waves| - 1]
  }

  /** Wave k lists, in declared order, the names whose longest chain of needs has k needs. */
  ghost predicate IsLayering(names: seq<string>, needs: Needs, waves: seq<seq<string>>) {
    forall k :: 0 <= k < |waves| ==>
      waves[k] != [] && waves[k] == Select(names, Layer(Elements(names), needs, k))
  }

  /**
   * The one answer Waves may give, without saying how it is found. With no edge between the
   * named repos, every entry is a wave of its own. Otherwise wave k holds, in declared order,
   * the names whose longest chain of needs among the named has k needs; and if some chain never
   * ends, the answer is the ascending list of the names such a chain starts at.
   */
  ghost predicate IsOutcome(names: seq<string>, needs: Needs, r: Outcome) {
    var D := Elements(names);
    if !AnyEdge(names, needs) then
      r.Ordered? && |r.waves| == |names| && forall i :: 0 <= i < |names| ==> r.waves[i] == [names[i]]
    else
      match r
      case Ordered(waves) =>
        && IsLayering(names, needs, waves)
        && Deep(D, needs, |waves|) == {}
      case Cycle(left) =>
        && Core(D, needs) != {}
        && Ascending(left)
        && Elements(left) == Core(D, needs)
  }

  // ---------------------------------------------------------------- the code

  method HasAnyEdge(names: seq<string>, needs: Needs) returns (found: bool)
    ensures found <==> AnyEdge(names, needs)
  {
    var named: set<string> := {};
    for i := 0 to |names|
      invariant named == Elements(names[..i])
    {
      named := named + {names[i]};
    }
    assert names[..|names|] == names;
    for i := 0 to |names|
      invariant forall a, b :: a in names[..i] && b in names ==> !Edge(needs, a, b)
    {
      var list := At(needs, names[i]);
      for j := 0 to |list|
        invariant forall k :: 0 <= k < j ==> list[k] == names[i] || list[k] !in names
      {
        if list[j] != names[i] && list[j] in named {
          assert Edge(needs, names[i], list[j]);
          return true;
        }
      }
      assert names[..i + 1] == names[..i] + [names[i]];
    }
    return false;
  }

  /** Everything name needs has left the pending set. */
  predicate Ready(name: string, needs: Needs, pending: set<string>) {
    forall need :: need in At(needs, name) ==> need == name || need !in pending
  }

  method Insert(list: seq<string>, name: string) returns (out: seq<string>)
    requires Ascending(list) && name !in list
    ensures Ascending(out) && Elements(out) == Elements(list) + {name}
  {
    var at := Slot(list, name);
    assert list == list[..at] + list[at..];
    out := list[..at] + [name] + list[at..];
  }

  method Sorted(names: set<string>) returns (out: seq<string>)
    ensures Ascending(out) && Elements(out) == names
  {
    out := [];
    var rest := names;
    while rest != {}
      invariant rest <= names
      invariant Ascending(out) && Elements(out) == names - rest
      decreases |rest|
    {
      var name :| name in rest;
      assert name !in Elements(out);
      out := Insert(out, name);
      rest := rest - {name};
    }
  }

  method Waves(names: seq<string>, needs: Needs) returns (r: Outcome)
    ensures IsOutcome(names, needs, r)
  {
    var constrained := HasAnyEdge(names, needs);
    if !constrained {
      var singles: seq<seq<string>> := [];
      for i := 0 to |names|
        invariant |singles| == i && forall k :: 0 <= k < i ==> singles[k] == [names[k]]
      {
        singles := singles + [[names[i]]];
      }
      return Ordered(singles);
    }

    ghost var D := Elements(names);
    var pending: set<string> := {};
    for i := 0 to |names|
      invariant pending == Elements(names[..i])
    {
      pending := pending + {names[i]};
    }
    assert names[..|names|] == names;

    var waves: seq<seq<string>> := [];
    while pending != {}
      invariant pending == Deep(D, needs, |waves|)
      invariant IsLayering(names, needs, waves)
      decreases |pending|
    {
      var wave := NextWave(names, needs, pending, |waves|);
      if wave == [] {
        NothingReady(D, needs, |waves|);
        var left := Sorted(pending);
        return Cycle(left);
      }

      pending := LeftAfter(pending, wave);
      LayerLeavesDeep(D, needs, |waves|);
      ExtendLayering(names, needs, waves, wave);
      waves := waves + [wave];
    }
    r := Ordered(waves);
  }

  /** One pass over the declared names: those pending whose needs have all left. */
  method NextWave(names: seq<string>, needs: Needs, pending: set<string>, ghost k: nat) returns (wave: seq<string>)
    requires pending == Deep(Elements(names), needs, k)
    ensures wave == Select(names, Layer(Elements(names), needs, k))
    ensures Elements(wave) == Layer(Elements(names), needs, k)
  {
    ghost var layer := Layer(Elements(names), needs, k);
    ReadyIsLayer(Elements(names), needs, k);
    wave := [];
    for i := 0 to |names|
      invariant wave == Select(names[..i], layer)
    {
      assert names[..i + 1][..i] == names[..i];
      if names[i] in pending && Ready(names[i], needs, pending) {
        wave := wave + [names[i]];
      }
    }
    assert names[..|names|] == names;
    SelectElements(names, layer);
    DeepAntitone(Elements(names), needs, 0, k);
  }

  /** The deletes of one wave from the pending set. */
  method LeftAfter(pending: set<string>, wave: seq<string>) returns (left: set<string>)
    ensures left == pending - Elements(wave)
    ensures wave != [] && Elements(wave) <= pending ==> |left| < |pending|
  {
    left := pending;
    for i := 0 to |wave|
      invariant left == pending - Elements(wave[..i])
    {
      left := left - {wave[i]};
    }
    assert wave[..|wave|] == wave;
    if wave != [] && Elements(wave) <= pending {
      assert wave[0] in pending && wave[0] !in left;
      SmallerSet(left, pending);
    }
  }

  method NeedsOf(repos: seq<RepoCheckout>) returns (needs: Needs)
    ensures needs == NeedsFrom(CheckoutsDeclare(repos))
  {
    ghost var ds := CheckoutsDeclare(repos);
    needs := map[];
    for i := 0 to |repos|
      invariant needs == NeedsFrom(ds[..i])
    {
      assert ds[..i + 1][..i] == ds[..i];
      if |repos[i].needs| > 0 {
        needs := needs[repos[i].name := repos[i].needs];
      }
    }
    assert ds[..|ds|] == ds;
  }

  /** A target that names no repo runs once, at the root. */
  method WavesFor(t: Target, repos: seq<RepoCheckout>) returns (r: Outcome)
    ensures t.runIn == [] ==> r == Ordered([[""]])
    ensures t.runIn != [] ==> IsOutcome(t.runIn, NeedsFrom(CheckoutsDeclare(repos)), r)
  {
    if |t.runIn| == 0 {
      return Ordered([[""]]);
    }
    var needs := NeedsOf(repos);
    r := Waves(t.runIn, needs);
  }

  // -------------------------------------------------------------- its lemmas

  lemma ReadyIsLayer(D: set<string>, needs: Needs, k: nat)
    ensures forall name :: name in Layer(D, needs, k) <==>
      name in Deep(D, needs, k) && Ready(name, needs, Deep(D, needs, k))
  {
    var P := Deep(D, needs, k);
    DeepAntitone(D, needs, 0, k);
    forall name | name in P
      ensures name in Deep(D, needs, k + 1) <==> !Ready(name, needs, P)
    {
      if Waits(needs, name, P) {
        var b :| b in P && Edge(needs, name, b);
      }
      if !Ready(name, needs, P) {
        var b :| b in At(needs, name) && b != name && b in P;
        assert Edge(needs, name, b);
      }
    }
  }

  lemma {:induction false} SelectElements(s: seq<string>, keep: set<string>)
    ensures Elements(Select(s, keep)) == Elements(s) * keep
  {
    if s != [] {
      var front, last := s[..|s| - 1], s[|s| - 1];
      SelectElements(front, keep);
      assert s == front + [last];
      ElementsOfSum(front, [last]);
      ElementsOfSum(Select(front, keep), [last]);
    }
  }

  lemma ExtendLayering(names: seq<string>, needs: Needs, waves: seq<seq<string>>, wave: seq<string>)
    requires IsLayering(names, needs, waves)
    requires wave != [] && wave == Select(names, Layer(Elements(names), needs, |waves|))
    ensures IsLayering(names, needs, waves + [wave])
  {
  }

  lemma LayerLeavesDeep(D: set<string>, needs: Needs, k: nat)
    ensures Layer(D, needs, k) <= Deep(D, needs, k)
    ensures Deep(D, needs, k) - Layer(D, needs, k) == Deep(D, needs, k + 1)
  {
    DeepShrinks(D, needs, k);
  }

  lemma NothingReadyIsStuck(D: set<string>, needs: Needs, k: nat)
    requires Layer(D, needs, k) == {}
    ensures Deep(D, needs, k) <= D && Stuck(Deep(D, needs, k), needs)
  {
    DeepAntitone(D, needs, 0, k);
    forall a | a in Deep(D, needs, k)
      ensures Waits(needs, a, Deep(D, needs, k))
    {
      assert a !in Layer(D, needs, k);
      assert a in Deep(D, needs, k + 1);
    }
  }

  lemma NothingReady(D: set<string>, needs: Needs, k: nat)
    requires Layer(D, needs, k) == {} && Deep(D, needs, k) != {}
    ensures Deep(D, needs, k) == Core(D, needs)
  {
    NothingReadyIsStuck(D, needs, k);
    if |D| <= k {
      CoreIsStuck(D, needs);
      StuckIsDeep(D, needs, Core(D, needs), k);
      DeepAntitone(D, needs, |D|, k);
    } else {
      StuckIsDeep(D, needs, Deep(D, needs, k), |D|);
      DeepAntitone(D, needs, k, |D|);
    }
  }
}
