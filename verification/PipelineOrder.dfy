/** What an accepted pipeline can rely on at run time: no cycle anywhere, and one order for everything. */
module PipelineOrder {
  import opened NeedsGraph
  import opened Pipeline
  import opened PipelineForm
  import opened Text
  import W = Waves
  import WavesLaws

  // ------------------------------------------------------------ no cycle at run time

  /** Every checkout is of a declared repo and carries what the pipeline says that repo needs. */
  ghost predicate Carries(p: Pipeline, checkouts: seq<W.RepoCheckout>) {
    forall c :: c in checkouts ==>
      exists i :: 0 <= i < |p.repos| && p.repos[i].name == c.name && p.repos[i].needs == c.needs
  }

  lemma DeclaredRepoNeeds(p: Pipeline, i: nat)
    requires ReposOk(p) && i < |p.repos|
    ensures At(RepoNeeds(p), p.repos[i].name) == p.repos[i].needs
    ensures p.repos[i].name in Elements(RepoNames(p))
  {
    var ds := ReposDeclare(p);
    forall j, k | 0 <= j < k < |ds|
      ensures ds[j].name != ds[k].name
    {
      assert RepoOk(p, k);
    }
    DeclaredIsEdge(ds, i);
    assert RepoNames(p)[i] == p.repos[i].name;
  }

  lemma CheckoutEdgeIsDeclared(p: Pipeline, checkouts: seq<W.RepoCheckout>, a: string, b: string)
    requires ReposOk(p) && Carries(p, checkouts)
    requires Edge(NeedsFrom(W.CheckoutsDeclare(checkouts)), a, b)
    ensures a in RepoNames(p) && Edge(RepoNeeds(p), a, b)
  {
    var ds := W.CheckoutsDeclare(checkouts);
    EdgeIsDeclared(ds, a, b);
    var k :| 0 <= k < |ds| && ds[k].name == a && b in ds[k].needs;
    assert checkouts[k] in checkouts;
    var i :| 0 <= i < |p.repos| && p.repos[i].name == a && p.repos[i].needs == checkouts[k].needs;
    DeclaredRepoNeeds(p, i);
  }

  /** In an accepted pipeline no target can meet a cycle, whichever repos it names, in whatever order or number. */
  lemma NoTargetMeetsACycle(p: Pipeline, checkouts: seq<W.RepoCheckout>, runIn: seq<string>, r: W.Outcome)
    requires WellFormed(p) && Carries(p, checkouts)
    requires W.IsOutcome(runIn, NeedsFrom(W.CheckoutsDeclare(checkouts)), r)
    ensures r.Ordered?
  {
    var needs := NeedsFrom(W.CheckoutsDeclare(checkouts));
    forall a, b | a in Elements(runIn) && b in Elements(runIn) && Edge(needs, a, b)
      ensures a in Elements(RepoNames(p)) && Edge(RepoNeeds(p), a, b)
    {
      CheckoutEdgeIsDeclared(p, checkouts, a, b);
    }
    SubgraphKeepsAcyclic(Elements(RepoNames(p)), RepoNeeds(p), Elements(runIn), needs);
    WavesLaws.FailsExactlyOnACycle(runIn, needs, r);
  }

  lemma DeclaredEdgeIsRead(p: Pipeline, checkouts: seq<W.RepoCheckout>, i: nat, k: nat)
    requires ReposOk(p) && Carries(p, checkouts)
    requires forall j, l :: 0 <= j < l < |checkouts| ==> checkouts[j].name != checkouts[l].name
    requires i < |p.repos| && k < |checkouts| && checkouts[k].name == p.repos[i].name
    ensures At(NeedsFrom(W.CheckoutsDeclare(checkouts)), p.repos[i].name) == p.repos[i].needs
  {
    assert checkouts[k] in checkouts;
    var l :| 0 <= l < |p.repos| && p.repos[l].name == checkouts[k].name && p.repos[l].needs == checkouts[k].needs;
    DeclaredRepoNeeds(p, i);
    DeclaredRepoNeeds(p, l);
    DeclaredIsEdge(W.CheckoutsDeclare(checkouts), k);
  }

  /** With every repo checked out once, the run reads the very graph Validate checked. */
  lemma RunReadsTheCheckedGraph(p: Pipeline, checkouts: seq<W.RepoCheckout>, a: string, b: string)
    requires WellFormed(p) && Carries(p, checkouts)
    requires forall j, k :: 0 <= j < k < |checkouts| ==> checkouts[j].name != checkouts[k].name
    requires forall i :: 0 <= i < |p.repos| ==> exists k :: 0 <= k < |checkouts| && checkouts[k].name == p.repos[i].name
    ensures Edge(NeedsFrom(W.CheckoutsDeclare(checkouts)), a, b) <==> Edge(RepoNeeds(p), a, b)
  {
    if Edge(NeedsFrom(W.CheckoutsDeclare(checkouts)), a, b) { CheckoutEdgeIsDeclared(p, checkouts, a, b); }
    if Edge(RepoNeeds(p), a, b) {
      var i := DeclaringRepo(p, a, b);
      var k :| 0 <= k < |checkouts| && checkouts[k].name == p.repos[i].name;
      DeclaredEdgeIsRead(p, checkouts, i, k);
    }
  }

  lemma DeclaringRepo(p: Pipeline, a: string, b: string) returns (i: nat)
    requires b in At(RepoNeeds(p), a)
    ensures i < |p.repos| && p.repos[i].name == a && b in p.repos[i].needs
  {
    EdgeIsDeclared(ReposDeclare(p), a, b);
    i :| 0 <= i < |ReposDeclare(p)| && ReposDeclare(p)[i].name == a && b in ReposDeclare(p)[i].needs;
  }

  // ------------------------------------------------------------ one order for the whole pipeline

  datatype Node = Node(stage: nat, sub: nat)

  ghost predicate IsNode(p: Pipeline, n: Node) {
    n.stage < |p.stages| && n.sub < |p.stages[n.stage].substages|
  }

  function SubOf(p: Pipeline, n: Node): Substage
    requires IsNode(p, n)
  {
    p.stages[n.stage].substages[n.sub]
  }

  /** a names b in its needs, in the same stage. */
  ghost predicate NeedsNode(p: Pipeline, a: Node, b: Node)
    requires IsNode(p, a) && IsNode(p, b)
  {
    a.stage == b.stage && SubOf(p, b).name in SubOf(p, a).needs
  }

  /** The text u, <stage>/<substage>, names n. */
  ghost predicate Named(p: Pipeline, n: Node, u: string)
    requires IsNode(p, n)
  {
    HasSlash(u) && StagePart(u) == p.stages[n.stage].name && SubstagePart(u) == SubOf(p, n).name
  }

  /** In an accepted pipeline the text that names a substage is its stage, a slash, and it. */
  lemma NamedExactly(p: Pipeline, n: Node, u: string)
    requires StagesOk(p) && IsNode(p, n)
    ensures Named(p, n, u) <==> u == p.stages[n.stage].name + "/" + SubOf(p, n).name
  {
    var stage, sub := p.stages[n.stage].name, SubOf(p, n).name;
    assert StageOk(p, n.stage);
    KebabHasNoSlash(stage);
    UsesAreCutExactly(u, stage, sub);
  }

  lemma KebabHasNoSlash(s: string)
    requires Kebab(s)
    ensures '/' !in s
  {
  }

  /** An entry of uses is sound exactly when it joins an earlier stage and one of its substages. */
  lemma UseOkExactly(p: Pipeline, i: nat, u: string)
    requires StagesOk(p)
    ensures UseOk(p, i, u) <==> exists b :: IsNode(p, b) && b.stage < i && u == p.stages[b.stage].name + "/" + SubOf(p, b).name
  {
    if UseOk(p, i, u) {
      var b := UseNames(p, i, u);
      NamedExactly(p, b, u);
    }
    if b :| IsNode(p, b) && b.stage < i && u == p.stages[b.stage].name + "/" + SubOf(p, b).name {
      NamedExactly(p, b, u);
      assert p.stages[b.stage].substages[b.sub].name == SubstagePart(u);
    }
  }

  /** a names b in its uses, by stage and substage. */
  ghost predicate UsesNode(p: Pipeline, a: Node, b: Node)
    requires IsNode(p, a) && IsNode(p, b)
  {
    exists u :: u in SubOf(p, a).uses && Named(p, b, u)
  }

  ghost predicate DependsOn(p: Pipeline, a: Node, b: Node) {
    IsNode(p, a) && IsNode(p, b) && (NeedsNode(p, a, b) || UsesNode(p, a, b))
  }

  lemma NamesAreDistinct(p: Pipeline)
    requires StagesOk(p)
    ensures forall i, j :: 0 <= i < |p.stages| && 0 <= j < |p.stages| && p.stages[i].name == p.stages[j].name ==> i == j
    ensures forall a, b :: IsNode(p, a) && IsNode(p, b) && a.stage == b.stage && SubOf(p, a).name == SubOf(p, b).name ==> a == b
  {
    forall i, j | 0 <= i < |p.stages| && 0 <= j < |p.stages| && p.stages[i].name == p.stages[j].name
      ensures i == j
    {
      assert StageOk(p, i) && StageOk(p, j);
    }
    forall a, b | IsNode(p, a) && IsNode(p, b) && a.stage == b.stage && SubOf(p, a).name == SubOf(p, b).name
      ensures a == b
    {
      assert StageOk(p, a.stage) && SubstageOk(p, a.stage, a.sub) && SubstageOk(p, b.stage, b.sub);
    }
  }

  lemma UsesAreOk(p: Pipeline, a: Node, u: string)
    requires StagesOk(p) && IsNode(p, a) && u in SubOf(p, a).uses
    ensures UseOk(p, a.stage, u)
  {
    assert StageOk(p, a.stage) && SubstageOk(p, a.stage, a.sub);
  }

  lemma UseNames(p: Pipeline, i: nat, u: string) returns (b: Node)
    requires UseOk(p, i, u)
    ensures IsNode(p, b) && Named(p, b, u) && b.stage < i
  {
    var k: nat :| k < i && k < |p.stages| && p.stages[k].name == StagePart(u) && p.stages[k].HasSubstage(SubstagePart(u));
    var j: nat :| j < |p.stages[k].substages| && p.stages[k].substages[j].name == SubstagePart(u);
    b := Node(k, j);
  }

  lemma NamedIsOne(p: Pipeline, u: string, b: Node)
    requires StagesOk(p) && IsNode(p, b) && Named(p, b, u)
    ensures forall c :: IsNode(p, c) && Named(p, c, u) ==> c == b
  {
    NamesAreDistinct(p);
  }

  /** Every entry of uses stands for exactly one substage, and it is in an earlier stage. */
  lemma UseResolves(p: Pipeline, a: Node, u: string) returns (b: Node)
    requires StagesOk(p) && IsNode(p, a) && u in SubOf(p, a).uses
    ensures IsNode(p, b) && UsesNode(p, a, b) && b.stage < a.stage
    ensures HasSlash(u) && forall c :: IsNode(p, c) && Named(p, c, u) ==> c == b
  {
    UsesAreOk(p, a, u);
    b := UseNames(p, a.stage, u);
    NamedIsOne(p, u, b);
  }

  /** What a substage depends on is in an earlier stage, or is another substage of its stage that it needs. */
  lemma DependencyIsEarlierOrSibling(p: Pipeline, a: Node, b: Node)
    requires StagesOk(p) && DependsOn(p, a, b)
    ensures b.stage < a.stage || (b.stage == a.stage && Edge(StageNeeds(p.stages[a.stage]), SubOf(p, a).name, SubOf(p, b).name))
  {
    if NeedsNode(p, a, b) {
      var s := p.stages[a.stage];
      assert StageOk(p, a.stage) && SubstageOk(p, a.stage, a.sub);
      var ds := SubstagesDeclare(s);
      forall j, k | 0 <= j < k < |ds|
        ensures ds[j].name != ds[k].name
      {
        assert SubstageOk(p, a.stage, k);
      }
      DeclaredIsEdge(ds, a.sub);
    } else {
      var u :| u in SubOf(p, a).uses && Named(p, b, u);
      var c := UseResolves(p, a, u);
      assert c == b;
    }
  }

  /** The stages' waves: each stage ordered by Waves over its own substages. */
  ghost predicate IsSchedule(p: Pipeline, orders: seq<seq<seq<string>>>) {
    && |orders| == |p.stages|
    && forall i :: 0 <= i < |p.stages| ==>
      W.IsOutcome(SubstageNames(p.stages[i]), StageNeeds(p.stages[i]), W.Ordered(orders[i]))
  }

  /** In an accepted pipeline every stage can be ordered. */
  lemma EveryStageIsOrdered(p: Pipeline, i: nat, r: W.Outcome)
    requires WellFormed(p) && i < |p.stages|
    requires W.IsOutcome(SubstageNames(p.stages[i]), StageNeeds(p.stages[i]), r)
    ensures r.Ordered?
  {
    assert StageOk(p, i);
    WavesLaws.FailsExactlyOnACycle(SubstageNames(p.stages[i]), StageNeeds(p.stages[i]), r);
  }

  /** Node n runs in wave k of its stage. */
  ghost predicate RunsIn(p: Pipeline, orders: seq<seq<seq<string>>>, n: Node, k: nat) {
    IsNode(p, n) && n.stage < |orders| && k < |orders[n.stage]| && SubOf(p, n).name in orders[n.stage][k]
  }

  /** Every substage runs in some wave of its stage. */
  lemma EverySubstageRuns(p: Pipeline, orders: seq<seq<seq<string>>>, n: Node) returns (k: nat)
    requires IsSchedule(p, orders) && IsNode(p, n)
    ensures RunsIn(p, orders, n, k)
  {
    var s := p.stages[n.stage];
    assert SubstageNames(s)[n.sub] == SubOf(p, n).name;
    k := WavesLaws.EveryNameIsPlaced(SubstageNames(s), StageNeeds(s), orders[n.stage], SubOf(p, n).name);
  }

  /** By (stage, wave) everything a substage needs or uses comes strictly before it. */
  lemma DependenciesComeFirst(p: Pipeline, orders: seq<seq<seq<string>>>, a: Node, k: nat, b: Node, j: nat)
    requires WellFormed(p) && IsSchedule(p, orders)
    requires DependsOn(p, a, b) && RunsIn(p, orders, a, k) && RunsIn(p, orders, b, j)
    ensures b.stage < a.stage || (b.stage == a.stage && j < k)
  {
    DependencyIsEarlierOrSibling(p, a, b);
    if b.stage == a.stage {
      var s := p.stages[a.stage];
      WavesLaws.NeedsComeEarlier(SubstageNames(s), StageNeeds(s), orders[a.stage], SubOf(p, a).name, k, SubOf(p, b).name, j);
    }
  }

  /** So any listing of substages that goes by stage, then by wave, puts dependencies first. */
  lemma AnyRefinementPutsDependenciesFirst(p: Pipeline, orders: seq<seq<seq<string>>>, list: seq<Node>, waves: seq<nat>,
                                           x: nat, y: nat)
    requires WellFormed(p) && IsSchedule(p, orders)
    requires |waves| == |list| && forall i :: 0 <= i < |list| ==> RunsIn(p, orders, list[i], waves[i])
    requires forall i, j :: 0 <= i < j < |list| ==>
      list[i].stage < list[j].stage || (list[i].stage == list[j].stage && waves[i] <= waves[j])
    requires x < |list| && y < |list| && DependsOn(p, list[x], list[y])
    ensures y < x
  {
    DependenciesComeFirst(p, orders, list[x], waves[x], list[y], waves[y]);
  }

  lemma {:induction false} StagesNeverRise(p: Pipeline, c: seq<Node>, i: nat, j: nat)
    requires StagesOk(p) && i <= j < |c|
    requires forall k :: 0 <= k < |c| - 1 ==> DependsOn(p, c[k], c[k + 1])
    ensures c[j].stage <= c[i].stage
  {
    if i < j {
      StagesNeverRise(p, c, i, j - 1);
      assert DependsOn(p, c[j - 1], c[j - 1 + 1]);
      DependencyIsEarlierOrSibling(p, c[j - 1], c[j]);
    }
  }

  /** A closed walk along dependencies would stay in one stage and be a cycle of its needs. */
  lemma ClosedWalkIsStageCycle(p: Pipeline, c: seq<Node>)
    requires StagesOk(p)
    requires |c| >= 2 && c[0] == c[|c| - 1] && forall k :: 0 <= k < |c| - 1 ==> DependsOn(p, c[k], c[k + 1])
    ensures c[0].stage < |p.stages|
    ensures HasCycle(Elements(SubstageNames(p.stages[c[0].stage])), StageNeeds(p.stages[c[0].stage]))
  {
    var i := c[0].stage;
    assert DependsOn(p, c[0], c[0 + 1]);
    forall k | 0 <= k < |c|
      ensures c[k].stage == i && IsNode(p, c[k])
    {
      StagesNeverRise(p, c, 0, k);
      StagesNeverRise(p, c, k, |c| - 1);
      if k > 0 { assert DependsOn(p, c[k - 1], c[k - 1 + 1]); }
    }
    var names := seq(|c|, k requires 0 <= k < |c| => SubOf(p, c[k]).name);
    var s := p.stages[i];
    forall k | 0 <= k < |c|
      ensures names[k] in Elements(SubstageNames(s))
    {
      assert SubstageNames(s)[c[k].sub] == names[k];
    }
    forall k | 0 <= k < |names| - 1
      ensures Edge(StageNeeds(s), names[k], names[k + 1])
    {
      assert DependsOn(p, c[k], c[k + 1]);
      DependencyIsEarlierOrSibling(p, c[k], c[k + 1]);
    }
    assert IsCycle(Elements(SubstageNames(s)), StageNeeds(s), names);
  }

  /** Needs and uses together never go round in a circle, across all stages. */
  lemma NeedsAndUsesAreAcyclic(p: Pipeline, c: seq<Node>)
    requires WellFormed(p)
    requires |c| >= 2 && forall k :: 0 <= k < |c| - 1 ==> DependsOn(p, c[k], c[k + 1])
    ensures c[0] != c[|c| - 1]
  {
    if c[0] == c[|c| - 1] {
      ClosedWalkIsStageCycle(p, c);
    }
  }
}
