/** Pipeline.Validate: every check of the source, each adding to one list of problems. */
module Validate {
  import opened NeedsGraph
  import opened Pipeline
  import opened Text
  import WavesLaws
  import W = Waves

  /** One check: its problem joins the list when the check fails. */
  method Add(errs: seq<Problem>, fails: bool, e: Problem) returns (out: seq<Problem>)
    ensures forall x :: x in out <==> x in errs || (fails && x == e)
  {
    out := if fails then errs + [e] else errs;
  }

  method AddAll(errs: seq<Problem>, more: seq<Problem>) returns (out: seq<Problem>)
    ensures forall x :: x in out <==> x in errs || x in more
  {
    out := errs + more;
  }

  method VersionShapeProblems(v: Versioning) returns (errs: seq<Problem>)
    ensures forall e :: e in errs <==> VersionShapeProblem(v, e)
  {
    errs := Add([], v.tagPrefix != "" && !Kebab(v.tagPrefix), TagPrefixShape);
    errs := Add(errs, v.strategy != "" && !IsStrategy(v.strategy), StrategyUnknown);
    errs := Add(errs, v.cap != "" && !Cap(v.cap), CapShape);
    errs := Add(errs, v.semantic.unmatched != "" && !IsLevel(v.semantic.unmatched), LevelUnknown);
  }

  method VersionRuleProblems(v: Versioning) returns (errs: seq<Problem>)
    ensures forall e :: e in errs <==> VersionRuleProblem(v, e)
  {
    errs := [];
    for k := 0 to |v.ignorePaths|
      invariant forall e :: e in errs <==> e.IgnorePathEmpty? && exists l :: 0 <= l < k && Blank(v.ignorePaths[l])
    {
      errs := Add(errs, Blank(v.ignorePaths[k]), IgnorePathEmpty);
    }
    errs := Add(errs, v.commitPrefix != "" && Blank(v.commitPrefix), CommitPrefixBlank);
    errs := Add(errs, v.strategy != STRATEGY_SEMANTIC && !EmptySemantic(v.semantic), SemanticUnused);
  }

  method RepoProblems(p: Pipeline) returns (errs: seq<Problem>, repos: set<string>)
    ensures forall e :: e in errs <==> RepoProblem(p, |p.repos|, e)
    ensures forall name :: name in repos <==> IsRepo(p, name)
  {
    errs, repos := [], {};
    for i := 0 to |p.repos|
      invariant forall e :: e in errs <==> RepoProblem(p, i, e)
      invariant forall name :: name in repos <==> exists j :: 0 <= j < i && p.repos[j].name == name
    {
      var r := p.repos[i];
      errs := Add(errs, r.name == "", RepoNameMissing(i));
      errs := Add(errs, r.url == "", RepoUrlMissing(i));
      errs := Add(errs, r.name in repos, RepoDuplicate(i));
      repos := repos + {r.name};
    }
  }

  method NeedProblemsOf(p: Pipeline, i: nat, repos: set<string>) returns (errs: seq<Problem>)
    requires i < |p.repos|
    requires forall name :: name in repos <==> IsRepo(p, name)
    ensures forall e :: e in errs <==> NeedProblem(p, i + 1, e) && !NeedProblem(p, i, e)
  {
    var r := p.repos[i];
    errs := [];
    for k := 0 to |r.needs|
      invariant forall e :: e in errs <==>
        || (e == RepoNeedsItself(i) && exists l :: 0 <= l < k && r.needs[l] == r.name)
        || (e.RepoNeedsUnknown? && e.i == i && e.name != r.name && !IsRepo(p, e.name)
            && (exists l :: 0 <= l < k && r.needs[l] == e.name))
    {
      var need := r.needs[k];
      errs := Add(errs, need == r.name, RepoNeedsItself(i));
      errs := Add(errs, need != r.name && need !in repos, RepoNeedsUnknown(i, need));
    }
  }

  method NeedProblems(p: Pipeline, repos: set<string>) returns (errs: seq<Problem>, names: seq<string>, needs: Needs)
    requires forall name :: name in repos <==> IsRepo(p, name)
    ensures forall e :: e in errs <==> NeedProblem(p, |p.repos|, e)
    ensures names == RepoNames(p) && needs == RepoNeeds(p)
  {
    errs, names, needs := [], [], map[];
    ghost var ds := ReposDeclare(p);
    for i := 0 to |p.repos|
      invariant forall e :: e in errs <==> NeedProblem(p, i, e)
      invariant names == RepoNames(p)[..i] && needs == NeedsFrom(ds[..i])
    {
      var more := NeedProblemsOf(p, i, repos);
      errs := AddAll(errs, more);
      assert ds[..i + 1][..i] == ds[..i];
      if |p.repos[i].needs| > 0 {
        needs := needs[p.repos[i].name := p.repos[i].needs];
      }
      names := names + [p.repos[i].name];
    }
    assert ds[..|ds|] == ds;
  }

  /** The one report Waves makes of a graph it cannot order is the report of its cycles. */
  method CycleProblem(names: seq<string>, needs: Needs) returns (found: bool, left: seq<string>)
    ensures found ==> CycleReport(names, needs, left)
    ensures forall other :: CycleReport(names, needs, other) ==> found && other == left
  {
    var r := W.Waves(names, needs);
    found := r.Cycle?;
    left := if found then r.names else [];
    WavesLaws.FailsExactlyOnACycle(names, needs, r);
    if found {
      WavesLaws.ReportsWhatLeadsToACycle(names, needs, r);
      forall other | CycleReport(names, needs, other)
        ensures other == left
      {
        AscendingIsUnique(other, left);
      }
    }
  }

  method ManagerProblemsOf(p: Pipeline, i: nat, managers: set<string>) returns (errs: seq<Problem>)
    requires i < |p.managers|
    requires forall alias :: alias in managers <==> exists j :: 0 <= j < i && p.managers[j].alias == alias
    ensures forall e :: e in errs <==> ManagerProblem(p, i + 1, e) && !ManagerProblem(p, i, e)
  {
    var m := p.managers[i];
    errs := Add([], !Kebab(m.alias), ManagerAlias(i));
    errs := Add(errs, GoScheme(m.engine), ManagerGo(i));
    errs := Add(errs, !GoScheme(m.engine) && !Uri(m.engine), ManagerUri(i));
    errs := Add(errs, m.alias in managers, ManagerDuplicate(i));
  }

  method ManagerProblems(p: Pipeline) returns (errs: seq<Problem>, managers: set<string>)
    ensures forall e :: e in errs <==> ManagerProblem(p, |p.managers|, e)
    ensures forall alias :: alias in managers <==> IsManager(p, alias)
  {
    errs, managers := [], {};
    for i := 0 to |p.managers|
      invariant forall e :: e in errs <==> ManagerProblem(p, i, e)
      invariant forall alias :: alias in managers <==> exists j :: 0 <= j < i && p.managers[j].alias == alias
    {
      var more := ManagerProblemsOf(p, i, managers);
      assert forall e :: ManagerProblem(p, i, e) ==> ManagerProblem(p, i + 1, e);
      errs := AddAll(errs, more);
      managers := managers + {p.managers[i].alias};
    }
  }

  method IgnoreRepos(items: seq<SpecItem>) returns (out: seq<string>)
    ensures out == Texts(items)
  {
    out := [];
    for i := 0 to |items|
      invariant out == Texts(items[..i])
    {
      assert items[..i + 1][..i] == items[..i];
      if items[i].TextItem? {
        out := out + [items[i].text];
      }
    }
    assert items[..|items|] == items;
  }

  method IgnoreProblems(p: Pipeline, i: nat, repos: set<string>) returns (errs: seq<Problem>)
    requires i < |p.engines|
    requires forall name :: name in repos <==> IsRepo(p, name)
    ensures forall e :: e in errs <==>
      IgnoreProblem(p, i + 1, e) && !IgnoreProblem(p, i, e)
  {
    errs := [];
    if p.engines[i].port == ARTIFACT {
      var names := IgnoreRepos(p.engines[i].ignoreRepos);
      var ignored: set<string> := {};
      for k := 0 to |names|
        invariant forall name :: name in ignored <==> exists l :: 0 <= l < k && names[l] == name
        invariant forall e :: e in errs <==>
          || (e.IgnoresUnknown? && e.i == i && e.name in names[..k] && !IsRepo(p, e.name))
          || (e.IgnoresTwice? && e.i == i && Repeats(names[..k], e.name))
      {
        var name := names[k];
        RepeatsGrows(names[..k], name);
        assert names[..k + 1] == names[..k] + [name];
        errs := Add(errs, name !in repos, IgnoresUnknown(i, name));
        errs := Add(errs, name in ignored, IgnoresTwice(i, name));
        ignored := ignored + {name};
      }
      assert names[..|names|] == names;
    }
  }

  lemma RepeatsGrows(names: seq<string>, last: string)
    ensures forall name :: Repeats(names + [last], name) <==> Repeats(names, name) || (name == last && name in names)
  {
    var all := names + [last];
    forall name
      ensures Repeats(all, name) <==> Repeats(names, name) || (name == last && name in names)
    {
      if Repeats(names, name) {
        var j, k :| 0 <= j < k < |names| && names[j] == name && names[k] == name;
        assert all[j] == name && all[k] == name;
      }
      if name == last && name in names {
        var j :| 0 <= j < |names| && names[j] == name;
        assert all[j] == name && all[|names|] == name;
      }
    }
  }

  method EngineShapeProblems(p: Pipeline, i: nat) returns (errs: seq<Problem>)
    requires i < |p.engines|
    ensures forall e :: e in errs <==> EngineShapeProblem(p, i + 1, e) && !EngineShapeProblem(p, i, e)
  {
    var en := p.engines[i];
    errs := Add([], !Kebab(en.alias), EngineAlias(i));
    errs := Add(errs, !IsPort(en.port), EnginePort(i));
    errs := Add(errs, GoScheme(en.engine), EngineGo(i));
    errs := Add(errs, !GoScheme(en.engine) && !Uri(en.engine), EngineUri(i));
  }

  method EngineNameProblems(p: Pipeline, i: nat, managers: set<string>, ports: map<string, string>)
    returns (errs: seq<Problem>)
    requires i < |p.engines|
    requires forall alias :: alias in managers <==> IsManager(p, alias)
    requires ports == PortMap(p.engines[..i])
    ensures forall e :: e in errs <==> EngineNameProblem(p, i + 1, e) && !EngineNameProblem(p, i, e)
  {
    var en := p.engines[i];
    assert en.alias in ports <==> exists j :: 0 <= j < i && p.engines[j].alias == en.alias by {
      assert forall j :: 0 <= j < i ==> p.engines[..i][j] == p.engines[j];
    }
    errs := Add([], en.manager !in managers, EngineManager(i));
    errs := Add(errs, en.alias in ports, EngineDuplicate(i));
  }

  method EngineProblems(p: Pipeline, repos: set<string>, managers: set<string>)
    returns (errs: seq<Problem>, ports: map<string, string>, named: set<string>)
    requires forall name :: name in repos <==> IsRepo(p, name)
    requires forall alias :: alias in managers <==> IsManager(p, alias)
    ensures forall e :: e in errs <==>
      EngineShapeProblem(p, |p.engines|, e) || EngineNameProblem(p, |p.engines|, e) || IgnoreProblem(p, |p.engines|, e)
    ensures ports == PortMap(p.engines)
    ensures forall alias :: alias in named <==> exists k :: 0 <= k < |p.engines| && p.engines[k].manager == alias
  {
    errs, ports, named := [], map[], {};
    for i := 0 to |p.engines|
      invariant forall e :: e in errs <==> EngineShapeProblem(p, i, e) || EngineNameProblem(p, i, e) || IgnoreProblem(p, i, e)
      invariant ports == PortMap(p.engines[..i])
      invariant forall alias :: alias in named <==> exists k :: 0 <= k < i && p.engines[k].manager == alias
    {
      named := named + {p.engines[i].manager};
      var shapes := EngineShapeProblems(p, i);
      var names := EngineNameProblems(p, i, managers, ports);
      var ignores := IgnoreProblems(p, i, repos);
      EngineProblemsGrow(p, i);
      errs := AddAll(errs, shapes);
      errs := AddAll(errs, names);
      errs := AddAll(errs, ignores);
      assert p.engines[..i + 1][..i] == p.engines[..i];
      ports := ports[p.engines[i].alias := p.engines[i].port];
    }
    assert p.engines[..|p.engines|] == p.engines;
  }

  lemma EngineProblemsGrow(p: Pipeline, i: nat)
    requires i < |p.engines|
    ensures forall e :: EngineShapeProblem(p, i, e) ==> EngineShapeProblem(p, i + 1, e)
    ensures forall e :: EngineNameProblem(p, i, e) ==> EngineNameProblem(p, i + 1, e)
    ensures forall e :: IgnoreProblem(p, i, e) ==> IgnoreProblem(p, i + 1, e)
  {
  }

  method UnusedProblems(p: Pipeline, named: set<string>) returns (errs: seq<Problem>)
    requires forall alias :: alias in named <==> exists k :: 0 <= k < |p.engines| && p.engines[k].manager == alias
    ensures forall e :: e in errs <==> UnusedProblem(p, |p.managers|, e)
  {
    errs := [];
    for i := 0 to |p.managers|
      invariant forall e :: e in errs <==> UnusedProblem(p, i, e)
    {
      errs := Add(errs, p.managers[i].alias !in named, ManagerUnused(i));
    }
  }

  method RequirePort(p: Pipeline, ports: map<string, string>, place: Place, alias: string, want: string)
    returns (errs: seq<Problem>)
    requires ports == PortMap(p.engines)
    ensures forall e :: e in errs <==> PortProblem(p, place, alias, want, e)
  {
    if alias !in ports {
      return [EngineMissing(place, alias)];
    }
    errs := Add([], ports[alias] != want, EngineWrongPort(place, alias));
  }

  method StateProblems(p: Pipeline, ports: map<string, string>) returns (errs: seq<Problem>)
    requires ports == PortMap(p.engines)
    ensures forall e :: e in errs <==> StateProblem(p, e)
  {
    if p.state == "" {
      errs := [StateMissing];
    } else {
      errs := RequirePort(p, ports, AtState, p.state, STATE);
    }
  }

  method TriggerProblems(p: Pipeline, ports: map<string, string>) returns (errs: seq<Problem>)
    requires ports == PortMap(p.engines)
    ensures forall e :: e in errs <==> TriggerProblem(p, |p.triggers|, e)
  {
    errs := [];
    for i := 0 to |p.triggers|
      invariant forall e :: e in errs <==> TriggerProblem(p, i, e)
    {
      var more := RequirePort(p, ports, AtTrigger(i), p.triggers[i], TRIGGER);
      errs := AddAll(errs, more);
    }
  }

  method TargetShapeProblemsOf(p: Pipeline, i: nat, targets: set<string>) returns (errs: seq<Problem>)
    requires i < |p.targets|
    requires forall alias :: alias in targets <==> exists j :: 0 <= j < i && p.targets[j].alias == alias
    ensures forall e :: e in errs <==> TargetShapeProblem(p, i + 1, e) && !TargetShapeProblem(p, i, e)
  {
    var t := p.targets[i];
    errs := Add([], !Kebab(t.alias), TargetAlias(i));
    errs := Add(errs, Blank(t.binary), TargetBinary(i));
    errs := Add(errs, t.alias in targets, TargetDuplicate(i));
  }

  method TargetShapeProblems(p: Pipeline) returns (errs: seq<Problem>, targets: set<string>)
    ensures forall e :: e in errs <==> TargetShapeProblem(p, |p.targets|, e)
    ensures forall alias :: alias in targets <==> IsTarget(p, alias)
  {
    errs, targets := [], {};
    for i := 0 to |p.targets|
      invariant forall e :: e in errs <==> TargetShapeProblem(p, i, e)
      invariant forall alias :: alias in targets <==> exists j :: 0 <= j < i && p.targets[j].alias == alias
    {
      var more := TargetShapeProblemsOf(p, i, targets);
      assert forall e :: TargetShapeProblem(p, i, e) ==> TargetShapeProblem(p, i + 1, e);
      errs := AddAll(errs, more);
      targets := targets + {p.targets[i].alias};
    }
  }

  method TargetInProblems(p: Pipeline, repos: set<string>) returns (errs: seq<Problem>)
    requires forall name :: name in repos <==> IsRepo(p, name)
    ensures forall e :: e in errs <==> TargetInProblem(p, |p.targets|, e)
  {
    errs := [];
    for i := 0 to |p.targets|
      invariant forall e :: e in errs <==> TargetInProblem(p, i, e)
    {
      var more := Unknown(p.targets[i].runIn, repos, name => TargetIn(i, name));
      errs := AddAll(errs, more);
    }
  }

  /** The names of a list that are not known, each reported at its place. */
  method Unknown(names: seq<string>, known: set<string>, report: string -> Problem) returns (errs: seq<Problem>)
    ensures forall e :: e in errs <==> exists name :: name in names && name !in known && e == report(name)
  {
    errs := [];
    for k := 0 to |names|
      invariant forall e :: e in errs <==>
        exists l :: 0 <= l < k && names[l] !in known && e == report(names[l])
    {
      errs := Add(errs, names[k] !in known, report(names[k]));
    }
  }

  method GateProblems(p: Pipeline, ports: map<string, string>, i: nat, j: nat) returns (errs: seq<Problem>)
    requires ports == PortMap(p.engines)
    requires i < |p.stages| && j < |p.stages[i].substages|
    ensures forall e :: e in errs <==> GateProblem(p, i, j, e)
  {
    var gates := p.stages[i].substages[j].gates;
    errs := [];
    for k := 0 to |gates|
      invariant forall e :: e in errs <==>
        exists l :: 0 <= l < k && PortProblem(p, AtGate(i, j), gates[l], GATE, e)
    {
      var more := RequirePort(p, ports, AtGate(i, j), gates[k], GATE);
      errs := AddAll(errs, more);
    }
  }

  method SubstageNeedProblems(p: Pipeline, i: nat, j: nat) returns (errs: seq<Problem>)
    requires i < |p.stages| && j < |p.stages[i].substages|
    ensures forall e :: e in errs <==> SubstageNeedProblem(p, i, j, e)
  {
    var s := p.stages[i];
    var sub := s.substages[j];
    errs := [];
    for k := 0 to |sub.needs|
      invariant forall e :: e in errs <==>
        SubstageNeedProblem(p, i, j, e) && (if e.SubstageNeedsItself? then sub.name else e.name) in sub.needs[..k]
    {
      var n := sub.needs[k];
      assert sub.needs[..k + 1] == sub.needs[..k] + [n];
      if n == sub.name {
        errs := Add(errs, true, SubstageNeedsItself(i, j));
      } else {
        errs := Add(errs, !s.HasSubstage(n), SubstageNeedsUnknown(i, j, n));
      }
    }
    assert sub.needs[..|sub.needs|] == sub.needs;
  }

  method SubstageTargetProblems(p: Pipeline, publishes: bool, targets: set<string>, i: nat, j: nat)
    returns (errs: seq<Problem>)
    requires i < |p.stages| && j < |p.stages[i].substages|
    requires publishes == Publishes(PortMap(p.engines), p.stages[i].substages[j].engine)
    requires forall alias :: alias in targets <==> IsTarget(p, alias)
    ensures forall e :: e in errs <==> SubstageTargetProblem(p, i, j, e)
  {
    var sub := p.stages[i].substages[j];
    var unknown := Unknown(sub.targets, targets, name => TargetUnknown(i, j, name));
    errs := Add([], publishes && |sub.targets| > 0, TargetsOnArtifact(i, j));
    errs := Add(errs, !publishes && |sub.targets| == 0, TargetsMissing(i, j));
    errs := AddAll(errs, unknown);
  }

  method SubstageProblems(p: Pipeline, ports: map<string, string>, targets: set<string>, subs: set<string>, i: nat, j: nat)
    returns (errs: seq<Problem>)
    requires ports == PortMap(p.engines)
    requires forall alias :: alias in targets <==> IsTarget(p, alias)
    requires i < |p.stages| && j < |p.stages[i].substages|
    requires forall name :: name in subs <==> exists k :: 0 <= k < j && p.stages[i].substages[k].name == name
    ensures forall e :: e in errs <==> SubstageProblem(p, i, j, e)
  {
    var sub := p.stages[i].substages[j];
    var publishes := Publishes(ports, sub.engine);
    errs := Add([], !Kebab(sub.name), SubstageName(i, j));
    errs := Add(errs, sub.name in subs, SubstageDuplicate(i, j));
    assert forall e :: e in errs <==> SubstageNameProblem(p, i, j, e);
    var own: seq<Problem> := [];
    if !publishes {
      own := RequirePort(p, ports, AtSubstage(i, j), sub.engine, COMPUTE);
    }
    assert forall e :: e in own <==> SubstageEngineProblem(p, i, j, e);
    var runs := SubstageTargetProblems(p, publishes, targets, i, j);
    var gates := GateProblems(p, ports, i, j);
    var needs := SubstageNeedProblems(p, i, j);
    errs := AddAll(errs, own);
    errs := AddAll(errs, runs);
    errs := AddAll(errs, gates);
    errs := AddAll(errs, needs);
  }

  method StageBefore(p: Pipeline, at: nat, name: string) returns (found: bool, k: nat)
    ensures found ==> IsStageBefore(p, at, name, k)
    ensures !found ==> !IsStageBeforeNamed(p, at, name)
  {
    k := 0;
    while k < |p.stages|
      invariant k <= |p.stages| && k <= at
      invariant forall j :: 0 <= j < k ==> p.stages[j].name != name
    {
      if k >= at {
        return false, 0;
      }
      if p.stages[k].name == name {
        return true, k;
      }
      k := k + 1;
    }
    return false, 0;
  }

  method UseProblems(p: Pipeline, i: nat, j: nat, u: string) returns (errs: seq<Problem>)
    ensures forall e :: e in errs <==> UseProblem(p, i, j, u, e)
  {
    if !HasSlash(u) {
      return [UsesShape(i, j, u)];
    }
    var found, at := StageBefore(p, i, StagePart(u));
    if !found {
      return [UsesStage(i, j, u)];
    }
    if p.stages[at].HasSubstage(SubstagePart(u)) {
      return [];
    }
    return [UsesSubstage(i, j, u)];
  }

  method UsesProblems(p: Pipeline, i: nat, j: nat) returns (errs: seq<Problem>)
    requires i < |p.stages| && j < |p.stages[i].substages|
    ensures forall e :: e in errs <==> UsesProblem(p, i, j, e)
  {
    var uses := p.stages[i].substages[j].uses;
    errs := [];
    for k := 0 to |uses|
      invariant forall e :: e in errs <==> exists l :: 0 <= l < k && UseProblem(p, i, j, uses[l], e)
    {
      var more := UseProblems(p, i, j, uses[k]);
      errs := AddAll(errs, more);
    }
  }

  method StageProblems(p: Pipeline, ports: map<string, string>, targets: set<string>, stages: set<string>, i: nat)
    returns (errs: seq<Problem>)
    requires ports == PortMap(p.engines)
    requires forall alias :: alias in targets <==> IsTarget(p, alias)
    requires i < |p.stages|
    requires forall name :: name in stages <==> exists k :: 0 <= k < i && p.stages[k].name == name
    ensures forall e :: e in errs <==> StageProblem(p, i, e)
  {
    var s := p.stages[i];
    errs := Add([], !Kebab(s.name), StageName(i));
    errs := Add(errs, s.name in stages, StageDuplicate(i));
    errs := Add(errs, |s.substages| == 0, SubstagesMissing(i));
    assert forall e :: e in errs <==> StageShapeProblem(p, i, e);
    var promotion: seq<Problem> := [];
    if s.promotion != "" {
      promotion := RequirePort(p, ports, AtPromotion(i), s.promotion, PROMOTION);
    }
    var each := EachSubstage(p, ports, targets, i);
    var uses := EachUses(p, i);
    var names := NamesOf(s);
    var needs := NeedsOfStage(s);
    var stuck, left := CycleProblem(names, needs);
    errs := AddAll(errs, promotion);
    errs := AddAll(errs, each);
    errs := AddAll(errs, uses);
    errs := Add(errs, stuck, SubstageCycle(i, left));
  }

  method EachSubstage(p: Pipeline, ports: map<string, string>, targets: set<string>, i: nat) returns (errs: seq<Problem>)
    requires ports == PortMap(p.engines)
    requires forall alias :: alias in targets <==> IsTarget(p, alias)
    requires i < |p.stages|
    ensures forall e :: e in errs <==> SubstagesProblem(p, i, |p.stages[i].substages|, e)
  {
    var s := p.stages[i];
    errs := [];
    var subs: set<string> := {};
    for j := 0 to |s.substages|
      invariant forall name :: name in subs <==> exists k :: 0 <= k < j && s.substages[k].name == name
      invariant forall e :: e in errs <==> SubstagesProblem(p, i, j, e)
    {
      var more := SubstageProblems(p, ports, targets, subs, i, j);
      OneMoreSubstage(p, i, j);
      errs := AddAll(errs, more);
      subs := subs + {s.substages[j].name};
    }
  }

  lemma OneMoreSubstage(p: Pipeline, i: nat, j: nat)
    requires i < |p.stages| && j < |p.stages[i].substages|
    ensures forall e :: SubstagesProblem(p, i, j + 1, e) <==> SubstagesProblem(p, i, j, e) || SubstageProblem(p, i, j, e)
    ensures forall e :: StageUsesProblem(p, i, j + 1, e) <==> StageUsesProblem(p, i, j, e) || UsesProblem(p, i, j, e)
  {
  }

  method EachUses(p: Pipeline, i: nat) returns (errs: seq<Problem>)
    requires i < |p.stages|
    ensures forall e :: e in errs <==> StageUsesProblem(p, i, |p.stages[i].substages|, e)
  {
    errs := [];
    for j := 0 to |p.stages[i].substages|
      invariant forall e :: e in errs <==> StageUsesProblem(p, i, j, e)
    {
      var more := UsesProblems(p, i, j);
      OneMoreSubstage(p, i, j);
      errs := AddAll(errs, more);
    }
  }

  method NamesOf(s: Stage) returns (names: seq<string>)
    ensures names == SubstageNames(s)
  {
    names := [];
    for j := 0 to |s.substages|
      invariant names == SubstageNames(s)[..j]
    {
      names := names + [s.substages[j].name];
    }
  }

  method NeedsOfStage(s: Stage) returns (needs: Needs)
    ensures needs == StageNeeds(s)
  {
    var ds := SubstagesDeclare(s);
    needs := map[];
    for j := 0 to |s.substages|
      invariant needs == NeedsFrom(ds[..j])
    {
      assert ds[..j + 1][..j] == ds[..j];
      if |s.substages[j].needs| > 0 {
        needs := needs[s.substages[j].name := s.substages[j].needs];
      }
    }
    assert ds[..|ds|] == ds;
  }

  method IsSynced(p: Pipeline) returns (synced: bool)
    ensures synced <==> Synced(p)
  {
    synced := false;
    for i := 0 to |p.stages|
      invariant synced <==> exists k, l :: 0 <= k < i && 0 <= l < |p.stages[k].substages| && p.stages[k].substages[l].sync
    {
      var subs := p.stages[i].substages;
      ghost var before := synced;
      for j := 0 to |subs|
        invariant synced <==> before || exists l :: 0 <= l < j && subs[l].sync
      {
        if subs[j].sync {
          synced := true;
        }
      }
    }
  }

  method EachStage(p: Pipeline, ports: map<string, string>, targets: set<string>) returns (errs: seq<Problem>)
    requires ports == PortMap(p.engines)
    requires forall alias :: alias in targets <==> IsTarget(p, alias)
    ensures forall e :: e in errs <==> exists i :: 0 <= i < |p.stages| && StageProblem(p, i, e)
  {
    errs := [];
    var stages: set<string> := {};
    for i := 0 to |p.stages|
      invariant forall name :: name in stages <==> exists k :: 0 <= k < i && p.stages[k].name == name
      invariant forall e :: e in errs <==> exists k :: 0 <= k < i && StageProblem(p, k, e)
    {
      var more := StageProblems(p, ports, targets, stages, i);
      errs := AddAll(errs, more);
      stages := stages + {p.stages[i].name};
    }
  }

  method CatalogProblems(p: Pipeline) returns (errs: seq<Problem>, repos: set<string>, ports: map<string, string>)
    ensures forall e :: e in errs <==> CatalogProblem(p, e)
    ensures forall name :: name in repos <==> IsRepo(p, name)
    ensures ports == PortMap(p.engines)
  {
    errs := Add([], Blank(p.name), NameMissing);
    var more := VersionShapeProblems(p.versioning);
    errs := AddAll(errs, more);
    more := VersionRuleProblems(p.versioning);
    errs := AddAll(errs, more);
    more, repos := RepoProblems(p);
    errs := AddAll(errs, more);
    var names, needs;
    more, names, needs := NeedProblems(p, repos);
    errs := AddAll(errs, more);
    var stuck, left := CycleProblem(names, needs);
    errs := Add(errs, stuck, RepoCycle(left));
    var managers;
    more, managers := ManagerProblems(p);
    errs := AddAll(errs, more);
    errs := Add(errs, |p.engines| == 0, EnginesMissing);
    var named;
    more, ports, named := EngineProblems(p, repos, managers);
    errs := AddAll(errs, more);
    more := UnusedProblems(p, named);
    errs := AddAll(errs, more);
  }

  method PlanProblems(p: Pipeline, repos: set<string>, ports: map<string, string>) returns (errs: seq<Problem>)
    requires forall name :: name in repos <==> IsRepo(p, name)
    requires ports == PortMap(p.engines)
    ensures forall e :: e in errs <==> PlanProblem(p, e)
  {
    errs := StateProblems(p, ports);
    var more := TriggerProblems(p, ports);
    errs := AddAll(errs, more);
    var targets;
    more, targets := TargetShapeProblems(p);
    errs := AddAll(errs, more);
    more := TargetInProblems(p, repos);
    errs := AddAll(errs, more);
    errs := Add(errs, |p.stages| == 0, StagesMissing);
    more := EachStage(p, ports, targets);
    errs := AddAll(errs, more);
    var synced := IsSynced(p);
    errs := Add(errs, |p.repos| > 1 && !synced, NeverSynced);
  }

  /** Every problem is reported, not just the first, and nothing is reported that is not one. */
  method Validate(p: Pipeline) returns (errs: seq<Problem>)
    ensures forall e :: e in errs <==> Real(p, e)
  {
    var catalog, repos, ports := CatalogProblems(p);
    var plan := PlanProblems(p, repos, ports);
    errs := AddAll(catalog, plan);
  }
}
