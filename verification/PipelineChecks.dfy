/**
 * The checks against the definition of a well-formed pipeline, one by one and both ways.
 *
 * Each section of a pipeline has two kinds of lemma: it must be well-formed when nothing is reported
 * about it (MustBe), and nothing is reported about it when it is well-formed (IsClean, AreClean). They
 * are put together for what a pipeline declares, its catalog, and for what it does, its plan.
 */
module PipelineChecks {
  import opened NeedsGraph
  import opened Pipeline
  import opened PipelineForm
  import opened Text

  lemma PortMustBe(p: Pipeline, place: Place, alias: string, port: string)
    requires EnginesOk(p)
    requires forall e :: !PortProblem(p, place, alias, port, e)
    ensures HasPort(p, alias, port)
  {
    PortMapIsHasPort(p, alias, port);
    assert !PortProblem(p, place, alias, port, EngineMissing(place, alias));
    assert !PortProblem(p, place, alias, port, EngineWrongPort(place, alias));
  }

  lemma PortIsClean(p: Pipeline, place: Place, alias: string, port: string, e: Problem)
    requires EnginesOk(p) && HasPort(p, alias, port)
    ensures !PortProblem(p, place, alias, port, e)
  {
    PortMapIsHasPort(p, alias, port);
  }

  lemma GoIsNoUri(s: string)
    requires Uri(s)
    ensures !GoScheme(s)
  {
    assert s[1] == 'o' || s[1] == 'l';
    assert s[0] == 'f' || s[0] == 'a';
  }

  lemma VersioningMustBe(v: Versioning)
    requires forall e :: !VersionShapeProblem(v, e)
    requires forall e :: !VersionRuleProblem(v, e)
    ensures VersioningOk(v)
  {
    assert !VersionShapeProblem(v, TagPrefixShape) && !VersionShapeProblem(v, StrategyUnknown);
    assert !VersionShapeProblem(v, CapShape) && !VersionShapeProblem(v, LevelUnknown);
    assert !VersionRuleProblem(v, IgnorePathEmpty) && !VersionRuleProblem(v, CommitPrefixBlank);
    assert !VersionRuleProblem(v, SemanticUnused);
  }

  lemma RepoMustBe(p: Pipeline, i: nat)
    requires forall e :: !RepoProblem(p, |p.repos|, e)
    requires forall e :: !NeedProblem(p, |p.repos|, e)
    requires i < |p.repos|
    ensures RepoOk(p, i)
  {
    var n := |p.repos|;
    assert !RepoProblem(p, n, RepoNameMissing(i)) && !RepoProblem(p, n, RepoUrlMissing(i));
    assert !RepoProblem(p, n, RepoDuplicate(i));
    assert !NeedProblem(p, n, RepoNeedsItself(i));
    forall need | need in p.repos[i].needs
      ensures need != p.repos[i].name && IsRepo(p, need)
    {
      assert !NeedProblem(p, n, RepoNeedsUnknown(i, need));
    }
  }

  lemma RepoIsClean(p: Pipeline, e: Problem)
    requires ReposOk(p)
    ensures !RepoProblem(p, |p.repos|, e) && !NeedProblem(p, |p.repos|, e) && !RepoCycleProblem(p, e)
  {
  }

  lemma ManagerMustBe(p: Pipeline, i: nat)
    requires forall e :: !ManagerProblem(p, |p.managers|, e)
    requires forall e :: !UnusedProblem(p, |p.managers|, e)
    requires i < |p.managers|
    ensures ManagerOk(p, i)
  {
    var n := |p.managers|;
    assert !ManagerProblem(p, n, ManagerAlias(i)) && !ManagerProblem(p, n, ManagerGo(i));
    assert !ManagerProblem(p, n, ManagerUri(i)) && !ManagerProblem(p, n, ManagerDuplicate(i));
    assert !UnusedProblem(p, n, ManagerUnused(i));
  }

  lemma ManagerIsClean(p: Pipeline, e: Problem)
    requires ManagersOk(p)
    ensures !ManagerProblem(p, |p.managers|, e) && !UnusedProblem(p, |p.managers|, e)
  {
    if e.ManagerGo? && e.i < |p.managers| { GoIsNoUri(p.managers[e.i].engine); }
    if e.ManagerUnused? && e.i < |p.managers| { assert ManagerOk(p, e.i); }
  }

  lemma IgnoresMustBe(p: Pipeline, i: nat)
    requires forall e :: !IgnoreProblem(p, |p.engines|, e)
    requires i < |p.engines| && p.engines[i].port == ARTIFACT
    ensures IgnoresOk(p, Texts(p.engines[i].ignoreRepos))
  {
    forall name
      ensures name in Texts(p.engines[i].ignoreRepos) ==> IsRepo(p, name)
      ensures !Repeats(Texts(p.engines[i].ignoreRepos), name)
    {
      assert !IgnoreProblem(p, |p.engines|, IgnoresUnknown(i, name));
      assert !IgnoreProblem(p, |p.engines|, IgnoresTwice(i, name));
    }
  }

  lemma EngineMustBe(p: Pipeline, i: nat)
    requires forall e :: !EngineShapeProblem(p, |p.engines|, e)
    requires forall e :: !EngineNameProblem(p, |p.engines|, e)
    requires i < |p.engines| && (p.engines[i].port == ARTIFACT ==> IgnoresOk(p, Texts(p.engines[i].ignoreRepos)))
    ensures EngineOk(p, i)
  {
    var n := |p.engines|;
    assert !EngineShapeProblem(p, n, EngineAlias(i)) && !EngineShapeProblem(p, n, EnginePort(i));
    assert !EngineShapeProblem(p, n, EngineGo(i)) && !EngineShapeProblem(p, n, EngineUri(i));
    assert !EngineNameProblem(p, n, EngineManager(i)) && !EngineNameProblem(p, n, EngineDuplicate(i));
  }

  lemma EngineIsClean(p: Pipeline, e: Problem)
    requires EnginesOk(p)
    ensures !EngineShapeProblem(p, |p.engines|, e) && !EngineNameProblem(p, |p.engines|, e)
    ensures !IgnoreProblem(p, |p.engines|, e)
  {
    if e.EngineGo? && e.i < |p.engines| { GoIsNoUri(p.engines[e.i].engine); }
  }

  lemma TargetMustBe(p: Pipeline, i: nat)
    requires forall e :: !TargetShapeProblem(p, |p.targets|, e)
    requires forall e :: !TargetInProblem(p, |p.targets|, e)
    requires i < |p.targets|
    ensures TargetOk(p, i)
  {
    var n := |p.targets|;
    assert !TargetShapeProblem(p, n, TargetAlias(i)) && !TargetShapeProblem(p, n, TargetBinary(i));
    assert !TargetShapeProblem(p, n, TargetDuplicate(i));
    forall name | name in p.targets[i].runIn
      ensures IsRepo(p, name)
    {
      assert !TargetInProblem(p, n, TargetIn(i, name));
    }
  }

  lemma {:induction false} FirstStageNamed(p: Pipeline, name: string, k: nat) returns (f: nat)
    requires k < |p.stages| && p.stages[k].name == name
    ensures f <= k && IsStageBefore(p, k + 1, name, f)
  {
    if l: nat :| l < k && p.stages[l].name == name {
      f := FirstStageNamed(p, name, l);
    } else {
      f := k;
    }
  }

  lemma UseMustBe(p: Pipeline, i: nat, j: nat, u: string)
    requires i < |p.stages|
    requires forall e :: !UseProblem(p, i, j, u, e)
    ensures UseOk(p, i, u)
  {
    assert !UseProblem(p, i, j, u, UsesShape(i, j, u)) && !UseProblem(p, i, j, u, UsesStage(i, j, u));
    assert !UseProblem(p, i, j, u, UsesSubstage(i, j, u));
    var k: nat :| k < i && k < |p.stages| && p.stages[k].name == StagePart(u);
    var f := FirstStageNamed(p, StagePart(u), k);
    assert IsStageBefore(p, i, StagePart(u), f);
  }

  lemma RunsMustBe(p: Pipeline, i: nat, j: nat)
    requires EnginesOk(p)
    requires i < |p.stages| && j < |p.stages[i].substages|
    requires forall e :: !SubstageEngineProblem(p, i, j, e)
    requires forall e :: !SubstageTargetProblem(p, i, j, e)
    ensures RunsOk(p, p.stages[i].substages[j])
  {
    var sub := p.stages[i].substages[j];
    assert !SubstageTargetProblem(p, i, j, TargetsOnArtifact(i, j)) && !SubstageTargetProblem(p, i, j, TargetsMissing(i, j));
    PortMapIsHasPort(p, sub.engine, ARTIFACT);
    if !Publishes(PortMap(p.engines), sub.engine) {
      forall e
        ensures !PortProblem(p, AtSubstage(i, j), sub.engine, COMPUTE, e)
      {
        assert !SubstageEngineProblem(p, i, j, e);
      }
      PortMustBe(p, AtSubstage(i, j), sub.engine, COMPUTE);
    }
    forall t | t in sub.targets
      ensures IsTarget(p, t)
    {
      assert !SubstageTargetProblem(p, i, j, TargetUnknown(i, j, t));
    }
  }

  lemma GatesMustBe(p: Pipeline, i: nat, j: nat)
    requires EnginesOk(p)
    requires i < |p.stages| && j < |p.stages[i].substages|
    requires forall e :: !GateProblem(p, i, j, e)
    ensures forall g :: g in p.stages[i].substages[j].gates ==> HasPort(p, g, GATE)
  {
    forall g | g in p.stages[i].substages[j].gates
      ensures HasPort(p, g, GATE)
    {
      forall e
        ensures !PortProblem(p, AtGate(i, j), g, GATE, e)
      {
        assert !GateProblem(p, i, j, e);
      }
      PortMustBe(p, AtGate(i, j), g, GATE);
    }
  }

  lemma SubstageMustBe(p: Pipeline, i: nat, j: nat)
    requires EnginesOk(p)
    requires i < |p.stages| && j < |p.stages[i].substages|
    requires forall e :: !SubstageProblem(p, i, j, e)
    requires forall e :: !UsesProblem(p, i, j, e)
    ensures SubstageOk(p, i, j)
  {
    var sub := p.stages[i].substages[j];
    forall e
      ensures !SubstageNameProblem(p, i, j, e) && !SubstageEngineProblem(p, i, j, e) && !SubstageTargetProblem(p, i, j, e)
      ensures !GateProblem(p, i, j, e) && !SubstageNeedProblem(p, i, j, e)
    {
      assert !SubstageProblem(p, i, j, e);
    }
    RunsMustBe(p, i, j);
    GatesMustBe(p, i, j);
    assert !SubstageNameProblem(p, i, j, SubstageName(i, j)) && !SubstageNameProblem(p, i, j, SubstageDuplicate(i, j));
    assert !SubstageNeedProblem(p, i, j, SubstageNeedsItself(i, j));
    forall n | n in sub.needs
      ensures n != sub.name && p.stages[i].HasSubstage(n)
    {
      assert !SubstageNeedProblem(p, i, j, SubstageNeedsUnknown(i, j, n));
    }
    forall u | u in sub.uses
      ensures UseOk(p, i, u)
    {
      forall e
        ensures !UseProblem(p, i, j, u, e)
      {
        assert !UsesProblem(p, i, j, e);
      }
      UseMustBe(p, i, j, u);
    }
  }

  lemma StageMustBe(p: Pipeline, i: nat)
    requires EnginesOk(p)
    requires i < |p.stages|
    requires forall e :: !StageProblem(p, i, e)
    ensures StageOk(p, i)
  {
    var s := p.stages[i];
    forall e
      ensures !StageShapeProblem(p, i, e)
    {
      assert !StageProblem(p, i, e);
    }
    assert !StageShapeProblem(p, i, StageName(i)) && !StageShapeProblem(p, i, SubstagesMissing(i));
    assert !StageShapeProblem(p, i, StageDuplicate(i));
    if s.promotion != "" {
      forall e
        ensures !PortProblem(p, AtPromotion(i), s.promotion, PROMOTION, e)
      {
        assert !StageProblem(p, i, e);
      }
      PortMustBe(p, AtPromotion(i), s.promotion, PROMOTION);
    }
    forall j | 0 <= j < |s.substages|
      ensures SubstageOk(p, i, j)
    {
      forall e
        ensures !SubstageProblem(p, i, j, e) && !UsesProblem(p, i, j, e)
      {
        assert !StageProblem(p, i, e);
        assert !SubstagesProblem(p, i, |s.substages|, e) && !StageUsesProblem(p, i, |s.substages|, e);
      }
      SubstageMustBe(p, i, j);
    }
    if HasCycle(Elements(SubstageNames(s)), StageNeeds(s)) {
      var left := CyclesAreReported(SubstageNames(s), StageNeeds(s));
      var report := SubstageCycle(i, left);
      assert StageProblem(p, i, report);
      assert false;
    }
  }

  lemma CatalogMustBe(p: Pipeline)
    requires forall e :: !CatalogProblem(p, e)
    ensures !Blank(p.name) && VersioningOk(p.versioning) && ReposOk(p) && EnginesOk(p)
    ensures ManagersOk(p)
  {
    assert !CatalogProblem(p, NameMissing) && !CatalogProblem(p, EnginesMissing);
    forall e
      ensures !VersionShapeProblem(p.versioning, e) && !VersionRuleProblem(p.versioning, e)
      ensures !RepoProblem(p, |p.repos|, e) && !NeedProblem(p, |p.repos|, e) && !RepoCycleProblem(p, e)
      ensures !ManagerProblem(p, |p.managers|, e) && !UnusedProblem(p, |p.managers|, e)
      ensures !EngineShapeProblem(p, |p.engines|, e) && !EngineNameProblem(p, |p.engines|, e)
      ensures !IgnoreProblem(p, |p.engines|, e)
    {
      assert !CatalogProblem(p, e);
    }
    VersioningMustBe(p.versioning);
    forall i | 0 <= i < |p.repos| ensures RepoOk(p, i) { RepoMustBe(p, i); }
    forall i | 0 <= i < |p.managers| ensures ManagerOk(p, i) { ManagerMustBe(p, i); }
    forall i | 0 <= i < |p.engines|
      ensures EngineOk(p, i)
    {
      if p.engines[i].port == ARTIFACT { IgnoresMustBe(p, i); }
      EngineMustBe(p, i);
    }
    if HasCycle(Elements(RepoNames(p)), RepoNeeds(p)) {
      var left := CyclesAreReported(RepoNames(p), RepoNeeds(p));
      assert RepoCycleProblem(p, RepoCycle(left));
      assert false;
    }
  }

  lemma PlanMustBe(p: Pipeline)
    requires EnginesOk(p)
    requires forall e :: !PlanProblem(p, e)
    ensures p.state != "" && HasPort(p, p.state, STATE)
    ensures forall i :: 0 <= i < |p.triggers| ==> HasPort(p, p.triggers[i], TRIGGER)
    ensures TargetsOk(p)
    ensures StagesOk(p)
    ensures |p.repos| > 1 ==> Synced(p)
  {
    assert !PlanProblem(p, StateMissing) && !PlanProblem(p, StagesMissing) && !PlanProblem(p, NeverSynced);
    forall e
      ensures !PortProblem(p, AtState, p.state, STATE, e)
    {
      assert !PlanProblem(p, e);
    }
    PortMustBe(p, AtState, p.state, STATE);
    forall i | 0 <= i < |p.triggers|
      ensures HasPort(p, p.triggers[i], TRIGGER)
    {
      forall e
        ensures !PortProblem(p, AtTrigger(i), p.triggers[i], TRIGGER, e)
      {
        assert !PlanProblem(p, e);
      }
      PortMustBe(p, AtTrigger(i), p.triggers[i], TRIGGER);
    }
    forall e
      ensures !TargetShapeProblem(p, |p.targets|, e) && !TargetInProblem(p, |p.targets|, e)
    {
      assert !PlanProblem(p, e);
    }
    forall i | 0 <= i < |p.targets| ensures TargetOk(p, i) { TargetMustBe(p, i); }
    forall i | 0 <= i < |p.stages|
      ensures StageOk(p, i)
    {
      forall e
        ensures !StageProblem(p, i, e)
      {
        assert !PlanProblem(p, e);
      }
      StageMustBe(p, i);
    }
  }

  lemma CatalogIsClean(p: Pipeline, e: Problem)
    requires WellFormed(p)
    ensures !CatalogProblem(p, e)
  {
    assert !VersionShapeProblem(p.versioning, e) && !VersionRuleProblem(p.versioning, e);
    RepoIsClean(p, e);
    ManagerIsClean(p, e);
    EngineIsClean(p, e);
  }

  /** The substages that publish are the ones without targets. */
  lemma PublishesExactly(p: Pipeline, sub: Substage)
    requires EnginesOk(p) && RunsOk(p, sub)
    ensures Publishes(PortMap(p.engines), sub.engine) <==> sub.targets == []
  {
    PortMapIsHasPort(p, sub.engine, if sub.targets == [] then ARTIFACT else COMPUTE);
  }

  lemma SubstageEngineIsClean(p: Pipeline, i: nat, j: nat, e: Problem)
    requires EnginesOk(p)
    requires i < |p.stages| && j < |p.stages[i].substages| && RunsOk(p, p.stages[i].substages[j])
    ensures !SubstageEngineProblem(p, i, j, e)
  {
    var sub := p.stages[i].substages[j];
    PublishesExactly(p, sub);
    if sub.targets != [] { PortIsClean(p, AtSubstage(i, j), sub.engine, COMPUTE, e); }
  }

  lemma SubstageTargetsAreClean(p: Pipeline, i: nat, j: nat, e: Problem)
    requires i < |p.stages| && j < |p.stages[i].substages| && RunsOk(p, p.stages[i].substages[j])
    requires Publishes(PortMap(p.engines), p.stages[i].substages[j].engine) <==> p.stages[i].substages[j].targets == []
    ensures !SubstageTargetProblem(p, i, j, e)
  {
  }

  lemma SubstageNamesAreClean(p: Pipeline, i: nat, j: nat, e: Problem)
    requires i < |p.stages| && j < |p.stages[i].substages| && SubstageOk(p, i, j)
    ensures !SubstageNameProblem(p, i, j, e) && !SubstageNeedProblem(p, i, j, e)
  {
  }

  lemma GatesAreClean(p: Pipeline, i: nat, j: nat, e: Problem)
    requires EnginesOk(p)
    requires i < |p.stages| && j < |p.stages[i].substages| && SubstageOk(p, i, j)
    ensures !GateProblem(p, i, j, e)
  {
    forall g | g in p.stages[i].substages[j].gates
      ensures !PortProblem(p, AtGate(i, j), g, GATE, e)
    {
      PortIsClean(p, AtGate(i, j), g, GATE, e);
    }
  }

  lemma SubstageIsClean(p: Pipeline, i: nat, j: nat, e: Problem)
    requires EnginesOk(p)
    requires i < |p.stages| && j < |p.stages[i].substages| && SubstageOk(p, i, j)
    ensures !SubstageProblem(p, i, j, e)
  {
    SubstageNamesAreClean(p, i, j, e);
    SubstageEngineIsClean(p, i, j, e);
    PublishesExactly(p, p.stages[i].substages[j]);
    SubstageTargetsAreClean(p, i, j, e);
    GatesAreClean(p, i, j, e);
  }

  lemma UsesAreClean(p: Pipeline, i: nat, j: nat, e: Problem)
    requires StagesOk(p)
    requires i < |p.stages| && j < |p.stages[i].substages| && SubstageOk(p, i, j)
    ensures !UsesProblem(p, i, j, e)
  {
    forall u | u in p.stages[i].substages[j].uses
      ensures !UseProblem(p, i, j, u, e)
    {
      UseIsClean(p, i, j, u, e);
    }
  }

  lemma UseIsClean(p: Pipeline, i: nat, j: nat, u: string, e: Problem)
    requires StagesOk(p)
    requires i < |p.stages| && UseOk(p, i, u)
    ensures !UseProblem(p, i, j, u, e)
  {
    var k :| 0 <= k < i && p.stages[k].name == StagePart(u) && p.stages[k].HasSubstage(SubstagePart(u));
    assert StageOk(p, k);
    forall l: nat | IsStageBefore(p, i, StagePart(u), l)
      ensures l == k
    {
      assert StageOk(p, l);
    }
  }

  lemma SubstagesAreClean(p: Pipeline, i: nat, e: Problem)
    requires EnginesOk(p) && StagesOk(p)
    requires i < |p.stages|
    ensures !SubstagesProblem(p, i, |p.stages[i].substages|, e)
    ensures !StageUsesProblem(p, i, |p.stages[i].substages|, e)
  {
    forall j | 0 <= j < |p.stages[i].substages|
      ensures !SubstageProblem(p, i, j, e) && !UsesProblem(p, i, j, e)
    {
      SubstageIsClean(p, i, j, e);
      UsesAreClean(p, i, j, e);
    }
  }

  lemma StageItselfIsClean(p: Pipeline, i: nat, e: Problem)
    requires EnginesOk(p)
    requires i < |p.stages| && StageOk(p, i)
    ensures !StageShapeProblem(p, i, e) && !PromotionProblem(p, i, e) && !StageCycleProblem(p, i, e)
  {
    if p.stages[i].promotion != "" { PortIsClean(p, AtPromotion(i), p.stages[i].promotion, PROMOTION, e); }
  }

  lemma StagesAreClean(p: Pipeline, e: Problem)
    requires EnginesOk(p) && StagesOk(p)
    ensures forall i :: 0 <= i < |p.stages| ==> !StageProblem(p, i, e)
  {
    forall i | 0 <= i < |p.stages|
      ensures !StageProblem(p, i, e)
    {
      StageItselfIsClean(p, i, e);
      SubstagesAreClean(p, i, e);
    }
  }

  lemma StartIsClean(p: Pipeline, e: Problem)
    requires WellFormed(p)
    ensures !StateProblem(p, e) && !TriggerProblem(p, |p.triggers|, e)
  {
    PortIsClean(p, AtState, p.state, STATE, e);
    forall i | 0 <= i < |p.triggers|
      ensures !PortProblem(p, AtTrigger(i), p.triggers[i], TRIGGER, e)
    {
      PortIsClean(p, AtTrigger(i), p.triggers[i], TRIGGER, e);
    }
  }

  lemma SyncedExactly(p: Pipeline)
    ensures Synced(p) <==> exists s, sub :: s in p.stages && sub in s.substages && sub.sync
  {
    if s, sub :| s in p.stages && sub in s.substages && sub.sync {
      var i, j :| 0 <= i < |p.stages| && p.stages[i] == s && 0 <= j < |s.substages| && s.substages[j] == sub;
    }
  }

  lemma PlanIsClean(p: Pipeline, e: Problem)
    requires WellFormed(p)
    ensures !PlanProblem(p, e)
  {
    SyncedExactly(p);
    StartIsClean(p, e);
    TargetIsClean(p, e);
    StagesAreClean(p, e);
  }

  lemma TargetIsClean(p: Pipeline, e: Problem)
    requires TargetsOk(p)
    ensures !TargetShapeProblem(p, |p.targets|, e) && !TargetInProblem(p, |p.targets|, e)
  {
  }
}
