/** A pipeline as configured, everything that can be wrong with one, and what a right one is. */
module Pipeline {
  import opened NeedsGraph
  import opened Text

  const COMPUTE := "compute"
  const STATE := "state"
  const TRIGGER := "trigger"
  const GATE := "gate"
  const PROMOTION := "promotion"
  const ARTIFACT := "artifact"

  const STRATEGY_SEMANTIC := "semantic"

  predicate IsPort(port: string) {
    port == COMPUTE || port == STATE || port == TRIGGER || port == GATE || port == PROMOTION || port == ARTIFACT
  }

  predicate IsStrategy(s: string) {
    s == "bump-patch-version" || s == "bump-minor-version" || s == STRATEGY_SEMANTIC
  }

  predicate IsLevel(s: string) {
    s == "major" || s == "minor" || s == "patch" || s == "ignore" || s == "error"
  }

  datatype Semantic = Semantic(major: seq<string>, minor: seq<string>, patch: seq<string>, ignore: seq<string>, unmatched: string)

  datatype Versioning = Versioning(tagPrefix: string, strategy: string, cap: string, semantic: Semantic,
                                   ignorePaths: seq<string>, commitPrefix: string)

  datatype Repo = Repo(name: string, url: string, needs: seq<string>)

  datatype Manager = Manager(alias: string, engine: string)

  /** An entry of an untyped list in an engine's spec. */
  datatype SpecItem = TextItem(text: string) | OtherItem

  datatype Engine = Engine(alias: string, port: string, engine: string, manager: string, ignoreRepos: seq<SpecItem>)

  datatype TargetDecl = TargetDecl(alias: string, binary: string, runIn: seq<string>)

  datatype Substage = Substage(name: string, engine: string, targets: seq<string>, gates: seq<string>, sync: bool,
                               needs: seq<string>, uses: seq<string>)

  datatype Stage = Stage(name: string, promotion: string, substages: seq<Substage>) {
    predicate HasSubstage(sub: string) {
      exists j :: 0 <= j < |substages| && substages[j].name == sub
    }
  }

  datatype Pipeline = Pipeline(name: string, versioning: Versioning, repos: seq<Repo>, managers: seq<Manager>,
                               engines: seq<Engine>, state: string, triggers: seq<string>, targets: seq<TargetDecl>,
                               stages: seq<Stage>)

  // ------------------------------------------------------------ lookups

  predicate IsRepo(p: Pipeline, name: string) {
    exists i :: 0 <= i < |p.repos| && p.repos[i].name == name
  }

  predicate IsManager(p: Pipeline, alias: string) {
    exists i :: 0 <= i < |p.managers| && p.managers[i].alias == alias
  }

  predicate IsTarget(p: Pipeline, alias: string) {
    exists i :: 0 <= i < |p.targets| && p.targets[i].alias == alias
  }

  /** The port each engine alias stands for; a later engine under the same alias wins. */
  function PortMap(engines: seq<Engine>): (ports: map<string, string>)
    ensures forall a :: a in ports <==> exists i :: 0 <= i < |engines| && engines[i].alias == a
  {
    if engines == [] then map[]
    else
      var last := engines[|engines| - 1];
      PortMap(engines[..|engines| - 1])[last.alias := last.port]
  }

  predicate Publishes(ports: map<string, string>, alias: string) {
    alias in ports && ports[alias] == ARTIFACT
  }

  /** The names in an engine's spec.ignoreRepos; entries that are not text are passed over. */
  function Texts(items: seq<SpecItem>): seq<string> {
    if items == [] then []
    else
      var front, last := Texts(items[..|items| - 1]), items[|items| - 1];
      if last.TextItem? then front + [last.text] else front
  }

  /** ^(forge|alias)://.+ */
  predicate Uri(s: string) {
    ("forge://" <= s || "alias://" <= s) && |s| > 8 && s[8] != '\n'
  }

  predicate GoScheme(s: string) {
    "go://" <= s
  }

  /** ^v(0|[1-9]\d*)(\.(0|[1-9]\d*))?$ */
  predicate Cap(s: string) {
    && s != [] && s[0] == 'v'
    && var rest := s[1..];
       var dot := IndexOf(rest, '.');
       Number(rest[..dot]) && (dot < |rest| ==> Number(rest[dot + 1..]))
  }

  predicate EmptySemantic(s: Semantic) {
    s.major == [] && s.minor == [] && s.patch == [] && s.ignore == [] && s.unmatched == ""
  }

  function RepoNames(p: Pipeline): seq<string> {
    seq(|p.repos|, i requires 0 <= i < |p.repos| => p.repos[i].name)
  }

  function ReposDeclare(p: Pipeline): seq<Declared> {
    seq(|p.repos|, i requires 0 <= i < |p.repos| => Declared(p.repos[i].name, p.repos[i].needs))
  }

  function SubstageNames(s: Stage): seq<string> {
    seq(|s.substages|, j requires 0 <= j < |s.substages| => s.substages[j].name)
  }

  function SubstagesDeclare(s: Stage): seq<Declared> {
    seq(|s.substages|, j requires 0 <= j < |s.substages| => Declared(s.substages[j].name, s.substages[j].needs))
  }

  ghost function RepoNeeds(p: Pipeline): Needs {
    NeedsFrom(ReposDeclare(p))
  }

  ghost function StageNeeds(s: Stage): Needs {
    NeedsFrom(SubstagesDeclare(s))
  }

  /** uses: "<stage>/<substage>", cut at the first slash. */
  predicate HasSlash(u: string) {
    IndexOf(u, '/') < |u|
  }

  function StagePart(u: string): string {
    u[..IndexOf(u, '/')]
  }

  function SubstagePart(u: string): string
    requires HasSlash(u)
  {
    u[IndexOf(u, '/') + 1..]
  }

  /** k is the first stage of that name, and it stands before the stage at position at. */
  predicate IsStageBefore(p: Pipeline, at: nat, name: string, k: nat) {
    k < at && k < |p.stages| && p.stages[k].name == name && forall j :: 0 <= j < k ==> p.stages[j].name != name
  }

  predicate IsStageBeforeNamed(p: Pipeline, at: nat, name: string) {
    exists k :: 0 <= k < at && k < |p.stages| && p.stages[k].name == name
  }

  // ------------------------------------------------------------ problems

  /** Where the pipeline names an engine that must stand behind a given port. */
  datatype Place =
    | AtState
    | AtTrigger(i: nat)
    | AtPromotion(i: nat)
    | AtSubstage(i: nat, j: nat)
    | AtGate(i: nat, j: nat)

  /** One thing Validate can report, with the position it reports it at. */
  datatype Problem =
    | NameMissing
    | TagPrefixShape | StrategyUnknown | CapShape | LevelUnknown | IgnorePathEmpty | CommitPrefixBlank | SemanticUnused
    | RepoNameMissing(i: nat) | RepoUrlMissing(i: nat) | RepoDuplicate(i: nat)
    | RepoNeedsItself(i: nat) | RepoNeedsUnknown(i: nat, name: string) | RepoCycle(names: seq<string>)
    | ManagerAlias(i: nat) | ManagerGo(i: nat) | ManagerUri(i: nat) | ManagerDuplicate(i: nat) | ManagerUnused(i: nat)
    | EnginesMissing
    | EngineAlias(i: nat) | EnginePort(i: nat) | EngineGo(i: nat) | EngineUri(i: nat) | EngineManager(i: nat)
    | EngineDuplicate(i: nat) | IgnoresUnknown(i: nat, name: string) | IgnoresTwice(i: nat, name: string)
    | StateMissing
    | EngineMissing(place: Place, name: string) | EngineWrongPort(place: Place, name: string)
    | TargetAlias(i: nat) | TargetBinary(i: nat) | TargetIn(i: nat, name: string) | TargetDuplicate(i: nat)
    | StagesMissing
    | StageName(i: nat) | StageDuplicate(i: nat) | SubstagesMissing(i: nat)
    | SubstageName(i: nat, j: nat) | SubstageDuplicate(i: nat, j: nat)
    | TargetsOnArtifact(i: nat, j: nat) | TargetsMissing(i: nat, j: nat) | TargetUnknown(i: nat, j: nat, name: string)
    | SubstageNeedsItself(i: nat, j: nat) | SubstageNeedsUnknown(i: nat, j: nat, name: string)
    | UsesShape(i: nat, j: nat, name: string) | UsesStage(i: nat, j: nat, name: string)
    | UsesSubstage(i: nat, j: nat, name: string)
    | SubstageCycle(i: nat, names: seq<string>)
    | NeverSynced

  /** The report of a cycle: every name a cycle can be reached from, in ascending order. */
  ghost predicate CycleReport(names: seq<string>, needs: Needs, left: seq<string>) {
    && HasCycle(Elements(names), needs)
    && Ascending(left)
    && forall x :: x in left <==> LeadsToCycle(Elements(names), needs, x)
  }

  ghost predicate VersionShapeProblem(v: Versioning, e: Problem) {
    || (e.TagPrefixShape? && v.tagPrefix != "" && !Kebab(v.tagPrefix))
    || (e.StrategyUnknown? && v.strategy != "" && !IsStrategy(v.strategy))
    || (e.CapShape? && v.cap != "" && !Cap(v.cap))
    || (e.LevelUnknown? && v.semantic.unmatched != "" && !IsLevel(v.semantic.unmatched))
  }

  ghost predicate VersionRuleProblem(v: Versioning, e: Problem) {
    || (e.IgnorePathEmpty? && exists k :: 0 <= k < |v.ignorePaths| && Blank(v.ignorePaths[k]))
    || (e.CommitPrefixBlank? && v.commitPrefix != "" && Blank(v.commitPrefix))
    || (e.SemanticUnused? && v.strategy != STRATEGY_SEMANTIC && !EmptySemantic(v.semantic))
  }

  /** What is wrong with the first n repos taken by themselves. */
  ghost predicate RepoProblem(p: Pipeline, n: nat, e: Problem)
    requires n <= |p.repos|
  {
    || (e.RepoNameMissing? && e.i < n && p.repos[e.i].name == "")
    || (e.RepoUrlMissing? && e.i < n && p.repos[e.i].url == "")
    || (e.RepoDuplicate? && e.i < n && exists j :: 0 <= j < e.i && p.repos[j].name == p.repos[e.i].name)
  }

  ghost predicate NeedProblem(p: Pipeline, n: nat, e: Problem)
    requires n <= |p.repos|
  {
    || (e.RepoNeedsItself? && e.i < n && p.repos[e.i].name in p.repos[e.i].needs)
    || (e.RepoNeedsUnknown? && e.i < n && e.name in p.repos[e.i].needs && e.name != p.repos[e.i].name
        && !IsRepo(p, e.name))
  }

  ghost predicate RepoCycleProblem(p: Pipeline, e: Problem) {
    e.RepoCycle? && CycleReport(RepoNames(p), RepoNeeds(p), e.names)
  }

  ghost predicate ManagerProblem(p: Pipeline, n: nat, e: Problem)
    requires n <= |p.managers|
  {
    || (e.ManagerAlias? && e.i < n && !Kebab(p.managers[e.i].alias))
    || (e.ManagerGo? && e.i < n && GoScheme(p.managers[e.i].engine))
    || (e.ManagerUri? && e.i < n && !GoScheme(p.managers[e.i].engine) && !Uri(p.managers[e.i].engine))
    || (e.ManagerDuplicate? && e.i < n && exists j :: 0 <= j < e.i && p.managers[j].alias == p.managers[e.i].alias)
  }

  ghost predicate UnusedProblem(p: Pipeline, n: nat, e: Problem)
    requires n <= |p.managers|
  {
    && e.ManagerUnused? && e.i < n
    && forall k :: 0 <= k < |p.engines| ==> p.engines[k].manager != p.managers[e.i].alias
  }

  ghost predicate EngineShapeProblem(p: Pipeline, n: nat, e: Problem)
    requires n <= |p.engines|
  {
    || (e.EngineAlias? && e.i < n && !Kebab(p.engines[e.i].alias))
    || (e.EnginePort? && e.i < n && !IsPort(p.engines[e.i].port))
    || (e.EngineGo? && e.i < n && GoScheme(p.engines[e.i].engine))
    || (e.EngineUri? && e.i < n && !GoScheme(p.engines[e.i].engine) && !Uri(p.engines[e.i].engine))
  }

  ghost predicate EngineNameProblem(p: Pipeline, n: nat, e: Problem)
    requires n <= |p.engines|
  {
    || (e.EngineManager? && e.i < n && !IsManager(p, p.engines[e.i].manager))
    || (e.EngineDuplicate? && e.i < n && exists j :: 0 <= j < e.i && p.engines[j].alias == p.engines[e.i].alias)
  }

  ghost predicate IgnoreProblem(p: Pipeline, n: nat, e: Problem)
    requires n <= |p.engines|
  {
    || (e.IgnoresUnknown? && e.i < n && p.engines[e.i].port == ARTIFACT
        && e.name in Texts(p.engines[e.i].ignoreRepos) && !IsRepo(p, e.name))
    || (e.IgnoresTwice? && e.i < n && p.engines[e.i].port == ARTIFACT
        && Repeats(Texts(p.engines[e.i].ignoreRepos), e.name))
  }

  ghost predicate Repeats(names: seq<string>, name: string) {
    exists j, k :: 0 <= j < k < |names| && names[j] == name && names[k] == name
  }

  /** alias stands where an engine of the given port belongs. */
  ghost predicate PortProblem(p: Pipeline, place: Place, alias: string, want: string, e: Problem) {
    var ports := PortMap(p.engines);
    || (e == EngineMissing(place, alias) && alias !in ports)
    || (e == EngineWrongPort(place, alias) && alias in ports && ports[alias] != want)
  }

  ghost predicate StateProblem(p: Pipeline, e: Problem) {
    if e.StateMissing? then p.state == ""
    else p.state != "" && PortProblem(p, AtState, p.state, STATE, e)
  }

  ghost predicate TriggerProblem(p: Pipeline, n: nat, e: Problem)
    requires n <= |p.triggers|
  {
    exists i :: 0 <= i < n && PortProblem(p, AtTrigger(i), p.triggers[i], TRIGGER, e)
  }

  ghost predicate TargetShapeProblem(p: Pipeline, n: nat, e: Problem)
    requires n <= |p.targets|
  {
    || (e.TargetAlias? && e.i < n && !Kebab(p.targets[e.i].alias))
    || (e.TargetBinary? && e.i < n && Blank(p.targets[e.i].binary))
    || (e.TargetDuplicate? && e.i < n && exists j :: 0 <= j < e.i && p.targets[j].alias == p.targets[e.i].alias)
  }

  ghost predicate TargetInProblem(p: Pipeline, n: nat, e: Problem)
    requires n <= |p.targets|
  {
    e.TargetIn? && e.i < n && e.name in p.targets[e.i].runIn && !IsRepo(p, e.name)
  }

  ghost predicate GateProblem(p: Pipeline, i: nat, j: nat, e: Problem)
    requires i < |p.stages| && j < |p.stages[i].substages|
  {
    exists g :: g in p.stages[i].substages[j].gates && PortProblem(p, AtGate(i, j), g, GATE, e)
  }

  ghost predicate SubstageNameProblem(p: Pipeline, i: nat, j: nat, e: Problem)
    requires i < |p.stages| && j < |p.stages[i].substages|
  {
    var subs := p.stages[i].substages;
    || (e == SubstageName(i, j) && !Kebab(subs[j].name))
    || (e == SubstageDuplicate(i, j) && exists k :: 0 <= k < j && subs[k].name == subs[j].name)
  }

  /** A substage publishes through an artifact engine or runs targets through a compute engine. */
  ghost predicate SubstageEngineProblem(p: Pipeline, i: nat, j: nat, e: Problem)
    requires i < |p.stages| && j < |p.stages[i].substages|
  {
    var engine := p.stages[i].substages[j].engine;
    !Publishes(PortMap(p.engines), engine) && PortProblem(p, AtSubstage(i, j), engine, COMPUTE, e)
  }

  ghost predicate SubstageTargetProblem(p: Pipeline, i: nat, j: nat, e: Problem)
    requires i < |p.stages| && j < |p.stages[i].substages|
  {
    var sub := p.stages[i].substages[j];
    var publishes := Publishes(PortMap(p.engines), sub.engine);
    || (e == TargetsOnArtifact(i, j) && publishes && sub.targets != [])
    || (e == TargetsMissing(i, j) && !publishes && sub.targets == [])
    || (e.TargetUnknown? && e.i == i && e.j == j && e.name in sub.targets && !IsTarget(p, e.name))
  }

  ghost predicate SubstageNeedProblem(p: Pipeline, i: nat, j: nat, e: Problem)
    requires i < |p.stages| && j < |p.stages[i].substages|
  {
    var sub := p.stages[i].substages[j];
    || (e == SubstageNeedsItself(i, j) && sub.name in sub.needs)
    || (e.SubstageNeedsUnknown? && e.i == i && e.j == j && e.name in sub.needs && e.name != sub.name
        && !p.stages[i].HasSubstage(e.name))
  }

  /** What is wrong with substage j of stage i, its uses and the cycles apart. */
  ghost predicate SubstageProblem(p: Pipeline, i: nat, j: nat, e: Problem)
    requires i < |p.stages| && j < |p.stages[i].substages|
  {
    || SubstageNameProblem(p, i, j, e)
    || SubstageEngineProblem(p, i, j, e)
    || SubstageTargetProblem(p, i, j, e)
    || GateProblem(p, i, j, e)
    || SubstageNeedProblem(p, i, j, e)
  }

  /** u, used by substage j of stage i, names no substage of a stage before i. */
  ghost predicate UseProblem(p: Pipeline, i: nat, j: nat, u: string, e: Problem) {
    || (e == UsesShape(i, j, u) && !HasSlash(u))
    || (e == UsesStage(i, j, u) && HasSlash(u) && !IsStageBeforeNamed(p, i, StagePart(u)))
    || (e == UsesSubstage(i, j, u) && HasSlash(u)
        && exists k: nat :: IsStageBefore(p, i, StagePart(u), k) && !p.stages[k].HasSubstage(SubstagePart(u)))
  }

  ghost predicate UsesProblem(p: Pipeline, i: nat, j: nat, e: Problem)
    requires i < |p.stages| && j < |p.stages[i].substages|
  {
    exists u :: u in p.stages[i].substages[j].uses && UseProblem(p, i, j, u, e)
  }

  /** What is wrong with the first n substages of stage i. */
  ghost predicate SubstagesProblem(p: Pipeline, i: nat, n: nat, e: Problem)
    requires i < |p.stages| && n <= |p.stages[i].substages|
  {
    exists j :: 0 <= j < n && SubstageProblem(p, i, j, e)
  }

  /** What is wrong with what the first n substages of stage i use. */
  ghost predicate StageUsesProblem(p: Pipeline, i: nat, n: nat, e: Problem)
    requires i < |p.stages| && n <= |p.stages[i].substages|
  {
    exists j :: 0 <= j < n && UsesProblem(p, i, j, e)
  }

  ghost predicate StageShapeProblem(p: Pipeline, i: nat, e: Problem)
    requires i < |p.stages|
  {
    var s := p.stages[i];
    || (e == StageName(i) && !Kebab(s.name))
    || (e == StageDuplicate(i) && exists k :: 0 <= k < i && p.stages[k].name == s.name)
    || (e == SubstagesMissing(i) && s.substages == [])
  }

  ghost predicate PromotionProblem(p: Pipeline, i: nat, e: Problem)
    requires i < |p.stages|
  {
    p.stages[i].promotion != "" && PortProblem(p, AtPromotion(i), p.stages[i].promotion, PROMOTION, e)
  }

  ghost predicate StageCycleProblem(p: Pipeline, i: nat, e: Problem)
    requires i < |p.stages|
  {
    e.SubstageCycle? && e.i == i && CycleReport(SubstageNames(p.stages[i]), StageNeeds(p.stages[i]), e.names)
  }

  /** Everything wrong with stage i. */
  ghost predicate StageProblem(p: Pipeline, i: nat, e: Problem)
    requires i < |p.stages|
  {
    || StageShapeProblem(p, i, e)
    || PromotionProblem(p, i, e)
    || SubstagesProblem(p, i, |p.stages[i].substages|, e)
    || StageUsesProblem(p, i, |p.stages[i].substages|, e)
    || StageCycleProblem(p, i, e)
  }

  ghost predicate Synced(p: Pipeline) {
    exists i, j :: 0 <= i < |p.stages| && 0 <= j < |p.stages[i].substages| && p.stages[i].substages[j].sync
  }

  /** What is wrong with what the pipeline declares: its version rules, repos, managers and engines. */
  ghost predicate CatalogProblem(p: Pipeline, e: Problem) {
    || (e.NameMissing? && Blank(p.name))
    || VersionShapeProblem(p.versioning, e)
    || VersionRuleProblem(p.versioning, e)
    || RepoProblem(p, |p.repos|, e)
    || NeedProblem(p, |p.repos|, e)
    || RepoCycleProblem(p, e)
    || ManagerProblem(p, |p.managers|, e)
    || (e.EnginesMissing? && p.engines == [])
    || EngineShapeProblem(p, |p.engines|, e)
    || EngineNameProblem(p, |p.engines|, e)
    || IgnoreProblem(p, |p.engines|, e)
    || UnusedProblem(p, |p.managers|, e)
  }

  /** What is wrong with what the pipeline does: its state, triggers, targets and stages. */
  ghost predicate PlanProblem(p: Pipeline, e: Problem) {
    || StateProblem(p, e)
    || TriggerProblem(p, |p.triggers|, e)
    || TargetShapeProblem(p, |p.targets|, e)
    || TargetInProblem(p, |p.targets|, e)
    || (e.StagesMissing? && p.stages == [])
    || (exists i :: 0 <= i < |p.stages| && StageProblem(p, i, e))
    || (e.NeverSynced? && |p.repos| > 1 && !Synced(p))
  }

  /** e is really wrong with p. */
  ghost predicate Real(p: Pipeline, e: Problem) {
    CatalogProblem(p, e) || PlanProblem(p, e)
  }
}
