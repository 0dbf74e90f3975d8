/** The needs graph on a set of names: chains, cycles, and which names wait on a cycle. */
module NeedsGraph {

  type Needs = map<string, seq<string>>

  /** What name declares; a name that declares nothing needs nothing. */
  function At(needs: Needs, name: string): seq<string> {
    if name in needs then needs[name] else []
  }

  /** One declaration: a name and what it needs. */
  datatype Declared = Declared(name: string, needs: seq<string>)

  /** The needs a list of declarations adds up to; the last non-empty list under a name counts. */
  function NeedsFrom(ds: seq<Declared>): Needs {
    if ds == [] then map[]
    else
      var front, last := NeedsFrom(ds[..|ds| - 1]), ds[|ds| - 1];
      if last.needs != [] then front[last.name := last.needs] else front
  }

  /** a waits for b. A need on itself is no edge. */
  predicate Edge(needs: Needs, a: string, b: string) {
    a != b && b in At(needs, a)
  }

  /** A walk along needs that never leaves D. */
  ghost predicate IsChain(D: set<string>, needs: Needs, c: seq<string>) {
    && |c| > 0
    && (forall i :: 0 <= i < |c| ==> c[i] in D)
    && (forall i :: 0 <= i < |c| - 1 ==> Edge(needs, c[i], c[i + 1]))
  }

  /** A walk inside D that comes back to where it started. */
  ghost predicate IsCycle(D: set<string>, needs: Needs, c: seq<string>) {
    IsChain(D, needs, c) && |c| >= 2 && c[0] == c[|c| - 1]
  }

  ghost predicate HasCycle(D: set<string>, needs: Needs) {
    exists c :: IsCycle(D, needs, c)
  }

  /** Following needs from name, inside D, can end up going round a cycle. */
  ghost predicate LeadsToCycle(D: set<string>, needs: Needs, name: string) {
    exists c, i :: IsChain(D, needs, c) && c[0] == name && 0 <= i < |c| - 1 && c[i] == c[|c| - 1]
  }

  /** name waits for a member of S. */
  ghost predicate Waits(needs: Needs, name: string, S: set<string>) {
    exists b :: b in S && Edge(needs, name, b)
  }

  /** The members of D that wait for a member of S. */
  ghost function Waiting(D: set<string>, needs: Needs, S: set<string>): set<string> {
    set a | a in D && Waits(needs, a, S)
  }

  /** Every member of S waits for another member of S: no order can start with any of them. */
  ghost predicate Stuck(S: set<string>, needs: Needs) {
    forall a {:trigger Waits(needs, a, S)} :: a in S ==> Waits(needs, a, S)
  }

  /** A chain of k needs starts at name and stays inside D. */
  ghost predicate HasChain(D: set<string>, needs: Needs, name: string, k: nat) {
    exists c :: IsChain(D, needs, c) && c[0] == name && |c| == k + 1
  }

  /** The names of D from which a chain of k needs starts, by recursion on k. */
  ghost function Deep(D: set<string>, needs: Needs, k: nat): set<string> {
    if k == 0 then D
    else Waiting(D, needs, Deep(D, needs, k - 1))
  }

  /** The names whose longest chain of needs inside D has exactly k needs. */
  ghost function Layer(D: set<string>, needs: Needs, k: nat): set<string> {
    Deep(D, needs, k) - Deep(D, needs, k + 1)
  }

  /** The names no order can place: a chain longer than D starts at each. */
  ghost function Core(D: set<string>, needs: Needs): set<string> {
    Deep(D, needs, |D|)
  }

  /** What a name needs is the last non-empty list declared under it, and nothing when there is none. */
  lemma {:induction false} NeedsFromIsLast(ds: seq<Declared>, name: string)
    ensures At(NeedsFrom(ds), name) != [] ==> exists k :: IsLastList(ds, name, k) && At(NeedsFrom(ds), name) == ds[k].needs
    ensures At(NeedsFrom(ds), name) == [] ==> forall k :: 0 <= k < |ds| && ds[k].name == name ==> ds[k].needs == []
  {
    if ds != [] {
      var n := |ds| - 1;
      NeedsFromIsLast(ds[..n], name);
      if ds[n].name == name && ds[n].needs != [] {
        assert IsLastList(ds, name, n);
      } else if At(NeedsFrom(ds), name) != [] {
        var k :| IsLastList(ds[..n], name, k) && At(NeedsFrom(ds[..n]), name) == ds[..n][k].needs;
        assert forall l :: 0 <= l < n ==> ds[..n][l] == ds[l];
        assert IsLastList(ds, name, k);
      } else {
        assert forall l :: 0 <= l < n ==> ds[..n][l] == ds[l];
      }
    }
  }

  ghost predicate IsLastList(ds: seq<Declared>, name: string, k: int) {
    && 0 <= k < |ds| && ds[k].name == name && ds[k].needs != []
    && forall l :: k < l < |ds| && ds[l].name == name ==> ds[l].needs == []
  }

  /** Every edge was declared ... */
  lemma {:induction false} EdgeIsDeclared(ds: seq<Declared>, a: string, b: string)
    requires b in At(NeedsFrom(ds), a)
    ensures exists i :: 0 <= i < |ds| && ds[i].name == a && b in ds[i].needs
  {
    var n := |ds| - 1;
    if ds[n].name == a && ds[n].needs != [] {
      assert ds[n].name == a && b in ds[n].needs;
    } else {
      EdgeIsDeclared(ds[..n], a, b);
      var i :| 0 <= i < |ds[..n]| && ds[..n][i].name == a && b in ds[..n][i].needs;
      assert ds[i].name == a && b in ds[i].needs;
    }
  }

  /** ... and where names are distinct, everything declared is there to be read. */
  lemma {:induction false} DeclaredIsEdge(ds: seq<Declared>, i: nat)
    requires forall j, k :: 0 <= j < k < |ds| ==> ds[j].name != ds[k].name
    requires i < |ds|
    ensures At(NeedsFrom(ds), ds[i].name) == ds[i].needs
  {
    var n := |ds| - 1;
    if i < n {
      DeclaredIsEdge(ds[..n], i);
    } else if ds[n].needs == [] && At(NeedsFrom(ds[..n]), ds[n].name) != [] {
      EdgeIsDeclared(ds[..n], ds[n].name, At(NeedsFrom(ds[..n]), ds[n].name)[0]);
      assert false;
    }
  }

  lemma {:induction false} DeepHasChain(D: set<string>, needs: Needs, k: nat, name: string) returns (c: seq<string>)
    requires name in Deep(D, needs, k)
    ensures IsChain(D, needs, c) && c[0] == name && |c| == k + 1
  {
    if k == 0 {
      c := [name];
    } else {
      assert Waits(needs, name, Deep(D, needs, k - 1));
      var b :| b in Deep(D, needs, k - 1) && Edge(needs, name, b);
      var rest := DeepHasChain(D, needs, k - 1, b);
      c := [name] + rest;
    }
  }

  lemma {:induction false} ChainIsDeep(D: set<string>, needs: Needs, c: seq<string>)
    requires IsChain(D, needs, c)
    ensures c[0] in Deep(D, needs, |c| - 1)
  {
    if |c| > 1 {
      assert IsChain(D, needs, c[1..]);
      ChainIsDeep(D, needs, c[1..]);
      assert Edge(needs, c[0], c[0 + 1]);
      assert Waits(needs, c[0], Deep(D, needs, |c| - 2));
    }
  }

  /** The recursion computes what it says: Deep(k) is where the chains of k needs start. */
  lemma DeepIsChain(D: set<string>, needs: Needs, k: nat, name: string)
    ensures name in Deep(D, needs, k) <==> HasChain(D, needs, name, k)
  {
    if name in Deep(D, needs, k) {
      var c := DeepHasChain(D, needs, k, name);
    }
    if HasChain(D, needs, name, k) {
      var c :| IsChain(D, needs, c) && c[0] == name && |c| == k + 1;
      ChainIsDeep(D, needs, c);
    }
  }

  lemma {:induction false} DeepShrinks(D: set<string>, needs: Needs, k: nat)
    ensures Deep(D, needs, k + 1) <= Deep(D, needs, k) <= D
  {
    if k > 0 {
      DeepShrinks(D, needs, k - 1);
      WaitsGrows(needs, Deep(D, needs, k), Deep(D, needs, k - 1));
    }
  }

  lemma WaitsGrows(needs: Needs, S: set<string>, T: set<string>)
    requires S <= T
    ensures forall a :: Waits(needs, a, S) ==> Waits(needs, a, T)
  {
  }

  lemma {:induction false} DeepAntitone(D: set<string>, needs: Needs, j: nat, k: nat)
    requires j <= k
    ensures Deep(D, needs, k) <= Deep(D, needs, j)
    decreases k - j
  {
    if j < k {
      DeepShrinks(D, needs, j);
      DeepAntitone(D, needs, j + 1, k);
    }
  }

  lemma SameSizeSameDeep(D: set<string>, needs: Needs, k: nat)
    ensures |Deep(D, needs, k + 1)| <= |Deep(D, needs, k)|
    ensures |Deep(D, needs, k + 1)| == |Deep(D, needs, k)| ==> Deep(D, needs, k + 1) == Deep(D, needs, k)
  {
    DeepShrinks(D, needs, k);
    if Deep(D, needs, k + 1) != Deep(D, needs, k) {
      SmallerSet(Deep(D, needs, k + 1), Deep(D, needs, k));
    }
  }

  lemma DeepStays(D: set<string>, needs: Needs, k: nat)
    requires |Deep(D, needs, k + 1)| == |Deep(D, needs, k)|
    ensures |Deep(D, needs, k + 2)| == |Deep(D, needs, k + 1)|
  {
    SameSizeSameDeep(D, needs, k);
    assert Deep(D, needs, k + 2) == Waiting(D, needs, Deep(D, needs, k + 1));
    assert Deep(D, needs, k + 1) == Waiting(D, needs, Deep(D, needs, k));
  }

  /** Until Deep stops changing it loses a name at every step, so it stops within |D| steps. */
  lemma {:induction false} DeepStops(D: set<string>, needs: Needs, k: nat)
    ensures |Deep(D, needs, k + 1)| == |Deep(D, needs, k)| || |Deep(D, needs, k)| + k <= |D|
  {
    if k > 0 {
      var j := k - 1;
      DeepStops(D, needs, j);
      SameSizeSameDeep(D, needs, j);
      if |Deep(D, needs, j + 1)| == |Deep(D, needs, j)| {
        DeepStays(D, needs, j);
      }
    }
  }

  lemma SmallerSet<T>(a: set<T>, b: set<T>)
    requires a < b
    ensures |a| < |b|
  {
    assert b == a + (b - a);
    assert |b| == |a| + |b - a|;
  }

  lemma CoreIsStuck(D: set<string>, needs: Needs)
    ensures Stuck(Core(D, needs), needs) && Core(D, needs) <= D
  {
    var n := |D|;
    DeepStops(D, needs, n);
    SameSizeSameDeep(D, needs, n);
    assert Deep(D, needs, n + 1) == Core(D, needs);
    DeepAntitone(D, needs, 0, n);
  }

  lemma {:induction false} StuckIsDeep(D: set<string>, needs: Needs, S: set<string>, k: nat)
    requires S <= D && Stuck(S, needs)
    ensures S <= Deep(D, needs, k)
  {
    if k > 0 {
      StuckIsDeep(D, needs, S, k - 1);
      WaitsGrows(needs, S, Deep(D, needs, k - 1));
      forall a | a in S
        ensures a in Deep(D, needs, k)
      {
        assert Waits(needs, a, S);
        assert Waits(needs, a, Deep(D, needs, k - 1));
      }
    }
  }

  /** The pigeonhole principle: more positions than names means a repeat. */
  lemma {:induction false} Pigeonhole(D: set<string>, c: seq<string>) returns (i: nat, j: nat)
    requires |c| > |D| && forall k :: 0 <= k < |c| ==> c[k] in D
    ensures i < j < |c| && c[i] == c[j]
    decreases |c|
  {
    var last := |c| - 1;
    if k :| 0 <= k < last && c[k] == c[last] {
      i, j := k, last;
    } else {
      i, j := Pigeonhole(D - {c[last]}, c[..last]);
    }
  }

  /** Whoever is in the core has a chain long enough to repeat a name. */
  lemma CoreLeadsToCycle(D: set<string>, needs: Needs, name: string)
    requires name in Core(D, needs)
    ensures LeadsToCycle(D, needs, name) && HasCycle(D, needs)
  {
    var c := DeepHasChain(D, needs, |D|, name);
    var i, j := Pigeonhole(D, c);
    var lasso := c[..j + 1];
    assert IsChain(D, needs, lasso) && lasso[i] == lasso[|lasso| - 1];
    var cycle := c[i..j + 1];
    forall k | 0 <= k < |cycle| - 1
      ensures Edge(needs, cycle[k], cycle[k + 1])
    {
      assert Edge(needs, c[i + k], c[i + k + 1]);
    }
    assert IsCycle(D, needs, cycle);
  }

  /** Whoever can reach a cycle is in the core: the names on the way are stuck. */
  lemma LassoIsInCore(D: set<string>, needs: Needs, name: string, k: nat)
    requires LeadsToCycle(D, needs, name)
    ensures name in Deep(D, needs, k)
  {
    var c, i :| IsChain(D, needs, c) && c[0] == name && 0 <= i < |c| - 1 && c[i] == c[|c| - 1];
    var S := set x | x in c;
    forall a | a in S
      ensures exists b :: b in S && Edge(needs, a, b)
    {
      var p :| 0 <= p < |c| && c[p] == a;
      var q := if p == |c| - 1 then i else p;
      assert Edge(needs, c[q], c[q + 1]) && c[q + 1] in S;
    }
    StuckIsDeep(D, needs, S, k);
  }

  lemma CycleLeadsToCycle(D: set<string>, needs: Needs, c: seq<string>)
    requires IsCycle(D, needs, c)
    ensures LeadsToCycle(D, needs, c[0])
  {
    assert c[0] == c[|c| - 1] && 0 <= 0 < |c| - 1;
  }

  /** The core is exactly the names that can reach a cycle ... */
  lemma CoreIsWhatLeadsToCycle(D: set<string>, needs: Needs, name: string)
    ensures name in Core(D, needs) <==> LeadsToCycle(D, needs, name)
  {
    if name in Core(D, needs) { CoreLeadsToCycle(D, needs, name); }
    if LeadsToCycle(D, needs, name) { LassoIsInCore(D, needs, name, |D|); }
  }

  /** ... and it is empty exactly when there is no cycle. */
  lemma CoreIsEmptyIffAcyclic(D: set<string>, needs: Needs)
    ensures Core(D, needs) == {} <==> !HasCycle(D, needs)
  {
    if name :| name in Core(D, needs) { CoreLeadsToCycle(D, needs, name); }
    if HasCycle(D, needs) {
      var c :| IsCycle(D, needs, c);
      CycleLeadsToCycle(D, needs, c);
      LassoIsInCore(D, needs, c[0], |D|);
    }
  }

  /** Fewer names and fewer edges make no new cycle. Names that need nothing may be added. */
  lemma SubgraphKeepsAcyclic(D: set<string>, needs: Needs, D': set<string>, needs': Needs)
    requires !HasCycle(D, needs)
    requires forall a, b :: a in D' && b in D' && Edge(needs', a, b) ==> a in D && Edge(needs, a, b)
    ensures !HasCycle(D', needs')
  {
    if HasCycle(D', needs') {
      var c :| IsCycle(D', needs', c);
      forall i | 0 <= i < |c|
        ensures c[i] in D
      {
        var j := if i == |c| - 1 then 0 else i;
        assert Edge(needs', c[j], c[j + 1]);
      }
      forall i | 0 <= i < |c| - 1
        ensures Edge(needs, c[i], c[i + 1])
      {
        assert Edge(needs', c[i], c[i + 1]);
      }
      assert IsCycle(D, needs, c);
    }
  }

  /** Deep looks at nothing but the edges between members of D. */
  lemma {:induction false} DeepDependsOnEdges(D: set<string>, needs: Needs, needs': Needs, k: nat)
    requires forall a, b :: a in D && b in D ==> (Edge(needs, a, b) <==> Edge(needs', a, b))
    ensures Deep(D, needs, k) == Deep(D, needs', k)
  {
    if k > 0 {
      DeepDependsOnEdges(D, needs, needs', k - 1);
      DeepAntitone(D, needs, 0, k - 1);
    }
  }
}
