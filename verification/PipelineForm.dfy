/** What a well-formed pipeline is, said without any check, and what its lookups come to. */
module PipelineForm {
  import opened NeedsGraph
  import opened Pipeline
  import opened Selection
  import opened Text
  import opened TextLaws

  // ------------------------------------------------------------ well-formedness

  ghost predicate HasPort(p: Pipeline, alias: string, port: string) {
    exists k :: 0 <= k < |p.engines| && p.engines[k].alias == alias && p.engines[k].port == port
  }

  ghost predicate VersioningOk(v: Versioning) {
    && (v.tagPrefix == "" || Kebab(v.tagPrefix))
    && (v.strategy == "" || IsStrategy(v.strategy))
    && (v.cap == "" || Cap(v.cap))
    && (v.semantic.unmatched == "" || IsLevel(v.semantic.unmatched))
    && (forall k :: 0 <= k < |v.ignorePaths| ==> !Blank(v.ignorePaths[k]))
    && (v.commitPrefix == "" || !Blank(v.commitPrefix))
    && (v.strategy == STRATEGY_SEMANTIC || v.semantic == Semantic([], [], [], [], ""))
  }

  ghost predicate RepoOk(p: Pipeline, i: nat)
    requires i < |p.repos|
  {
    var r := p.repos[i];
    && r.name != "" && r.url != ""
    && (forall j :: 0 <= j < i ==> p.repos[j].name != r.name)
    && (forall need :: need in r.needs ==> need != r.name && IsRepo(p, need))
  }

  ghost predicate ReposOk(p: Pipeline) {
    && (forall i {:trigger p.repos[i]} :: 0 <= i < |p.repos| ==> RepoOk(p, i))
    && !HasCycle(Elements(RepoNames(p)), RepoNeeds(p))
  }

  ghost predicate ManagerOk(p: Pipeline, i: nat)
    requires i < |p.managers|
  {
    var m := p.managers[i];
    && Kebab(m.alias) && Uri(m.engine)
    && (forall j :: 0 <= j < i ==> p.managers[j].alias != m.alias)
    && (exists k :: 0 <= k < |p.engines| && p.engines[k].manager == m.alias)
  }

  ghost predicate ManagersOk(p: Pipeline) {
    forall i {:trigger p.managers[i]} :: 0 <= i < |p.managers| ==> ManagerOk(p, i)
  }

  ghost predicate EngineOk(p: Pipeline, i: nat)
    requires i < |p.engines|
  {
    var en := p.engines[i];
    && Kebab(en.alias) && IsPort(en.port) && Uri(en.engine) && IsManager(p, en.manager)
    && (forall j :: 0 <= j < i ==> p.engines[j].alias != en.alias)
    && (en.port == ARTIFACT ==> IgnoresOk(p, Texts(en.ignoreRepos)))
  }

  /** The repos an artifact engine ignores are declared, and each is named once. */
  ghost predicate IgnoresOk(p: Pipeline, names: seq<string>) {
    && (forall name :: name in names ==> IsRepo(p, name))
    && (forall name :: !Repeats(names, name))
  }

  ghost predicate EnginesOk(p: Pipeline) {
    p.engines != [] && forall i {:trigger p.engines[i]} :: 0 <= i < |p.engines| ==> EngineOk(p, i)
  }

  ghost predicate TargetOk(p: Pipeline, i: nat)
    requires i < |p.targets|
  {
    var t := p.targets[i];
    && Kebab(t.alias) && !Blank(t.binary)
    && (forall j :: 0 <= j < i ==> p.targets[j].alias != t.alias)
    && (forall name :: name in t.runIn ==> IsRepo(p, name))
  }

  ghost predicate TargetsOk(p: Pipeline) {
    forall i {:trigger p.targets[i]} :: 0 <= i < |p.targets| ==> TargetOk(p, i)
  }

  /** A substage without targets publishes, one with targets runs them, and each target is declared. */
  ghost predicate RunsOk(p: Pipeline, sub: Substage) {
    && (if sub.targets == [] then HasPort(p, sub.engine, ARTIFACT) else HasPort(p, sub.engine, COMPUTE))
    && (forall t :: t in sub.targets ==> IsTarget(p, t))
  }

  /** Substage j of stage i: its name is its own, and all it names exists. */
  ghost predicate SubstageOk(p: Pipeline, i: nat, j: nat)
    requires i < |p.stages| && j < |p.stages[i].substages|
  {
    var sub := p.stages[i].substages[j];
    && Kebab(sub.name)
    && (forall k :: 0 <= k < j ==> p.stages[i].substages[k].name != sub.name)
    && RunsOk(p, sub)
    && (forall g :: g in sub.gates ==> HasPort(p, g, GATE))
    && (forall n :: n in sub.needs ==> n != sub.name && p.stages[i].HasSubstage(n))
    && (forall u :: u in sub.uses ==> UseOk(p, i, u))
  }

  /** u is <stage>/<substage> and names a substage of a stage strictly before stage i. */
  ghost predicate UseOk(p: Pipeline, i: nat, u: string) {
    && HasSlash(u)
    && exists k :: 0 <= k < i && k < |p.stages| && p.stages[k].name == StagePart(u) && p.stages[k].HasSubstage(SubstagePart(u))
  }

  ghost predicate StageOk(p: Pipeline, i: nat)
    requires i < |p.stages|
  {
    var s := p.stages[i];
    && Kebab(s.name)
    && (forall k :: 0 <= k < i ==> p.stages[k].name != s.name)
    && (s.promotion == "" || HasPort(p, s.promotion, PROMOTION))
    && s.substages != []
    && (forall j :: 0 <= j < |s.substages| ==> SubstageOk(p, i, j))
    && !HasCycle(Elements(SubstageNames(s)), StageNeeds(s))
  }

  ghost predicate StagesOk(p: Pipeline) {
    p.stages != [] && forall i {:trigger p.stages[i]} :: 0 <= i < |p.stages| ==> StageOk(p, i)
  }

  /** All names are unique, every reference resolves to what it should, and both kinds of graph are acyclic. */
  ghost predicate WellFormed(p: Pipeline) {
    && !Blank(p.name)
    && VersioningOk(p.versioning)
    && ReposOk(p)
    && ManagersOk(p)
    && EnginesOk(p)
    && p.state != "" && HasPort(p, p.state, STATE)
    && (forall i :: 0 <= i < |p.triggers| ==> HasPort(p, p.triggers[i], TRIGGER))
    && TargetsOk(p)
    && StagesOk(p)
    && (|p.repos| > 1 ==> exists s, sub :: s in p.stages && sub in s.substages && sub.sync)
  }

  // ------------------------------------------------------------ what the lookups come to

  lemma {:induction false} TextsAreSelected(items: seq<SpecItem>, P: SpecItem -> bool, f: SpecItem -> string)
    requires forall i: SpecItem :: P(i) <==> i.TextItem?
    requires forall i: SpecItem :: i.TextItem? ==> f(i) == i.text
    ensures Texts(items) == Selected(items, P, f)
  {
    if items != [] { TextsAreSelected(items[..|items| - 1], P, f); }
  }

  /** The names an engine ignores are the text entries of its list, in their order and as often as listed. */
  lemma TextsExactly(items: seq<SpecItem>, name: string) returns (at: seq<nat>)
    ensures name in Texts(items) <==> TextItem(name) in items
    ensures |at| == |Texts(items)| && forall i :: 0 <= i < |at| ==> at[i] < |items| && items[at[i]] == TextItem(Texts(items)[i])
    ensures forall i, j :: 0 <= i < j < |at| ==> at[i] < at[j]
    ensures forall p: nat :: p < |items| && items[p].TextItem? ==> p in at
  {
    var P, f := (i: SpecItem) => i.TextItem?, (i: SpecItem) => if i.TextItem? then i.text else "";
    TextsAreSelected(items, P, f);
    at := SelectedSelects(items, P, f);
    if TextItem(name) in items {
      var p :| 0 <= p < |items| && items[p] == TextItem(name);
      var i :| 0 <= i < |at| && at[i] == p;
      assert Texts(items)[i] == name;
    }
  }

  /** An alias stands for the last engine declared under it. */
  lemma {:induction false} PortMapIsLastDeclared(engines: seq<Engine>, alias: string) returns (k: nat)
    requires alias in PortMap(engines)
    ensures k < |engines| && engines[k].alias == alias && engines[k].port == PortMap(engines)[alias]
    ensures forall l :: k < l < |engines| ==> engines[l].alias != alias
  {
    var n := |engines| - 1;
    if engines[n].alias == alias {
      k := n;
    } else {
      k := PortMapIsLastDeclared(engines[..n], alias);
      assert forall l :: 0 <= l < n ==> engines[..n][l] == engines[l];
    }
  }

  /** A lookup by name finds what is listed under it. */
  lemma LookupsExactly(p: Pipeline, s: Stage, name: string)
    ensures IsRepo(p, name) <==> exists r :: r in p.repos && r.name == name
    ensures IsManager(p, name) <==> exists m :: m in p.managers && m.alias == name
    ensures IsTarget(p, name) <==> exists t :: t in p.targets && t.alias == name
    ensures s.HasSubstage(name) <==> exists sub :: sub in s.substages && sub.name == name
  {
    if r :| r in p.repos && r.name == name { var i :| 0 <= i < |p.repos| && p.repos[i] == r; }
    if m :| m in p.managers && m.alias == name { var i :| 0 <= i < |p.managers| && p.managers[i] == m; }
    if t :| t in p.targets && t.alias == name { var i :| 0 <= i < |p.targets| && p.targets[i] == t; }
    if sub :| sub in s.substages && sub.name == name { var i :| 0 <= i < |s.substages| && s.substages[i] == sub; }
  }

  /** The words of the format: ports, version strategies and levels, and what stands for each part of a pipeline. */
  lemma WordsExactly(s: string)
    ensures IsPort(s) <==> s in {"compute", "state", "trigger", "gate", "promotion", "artifact"}
    ensures IsStrategy(s) <==> s in {"bump-patch-version", "bump-minor-version", "semantic"}
    ensures IsLevel(s) <==> s in {"major", "minor", "patch", "ignore", "error"}
    ensures COMPUTE == "compute" && STATE == "state" && TRIGGER == "trigger" && GATE == "gate"
    ensures PROMOTION == "promotion" && ARTIFACT == "artifact" && STRATEGY_SEMANTIC == "semantic"
  {
  }

  /** An entry of uses is cut at its first slash, and has two parts exactly when it has a slash. */
  lemma UsesAreCutExactly(u: string, stage: string, sub: string)
    requires '/' !in stage
    ensures HasSlash(u) <==> '/' in u
    ensures HasSlash(u) && StagePart(u) == stage && SubstagePart(u) == sub <==> u == stage + "/" + sub
  {
    CutExactly(u, '/', stage, sub);
    assert stage + "/" + sub == stage + (['/'] + sub);
  }

  /** A cap is v and a major number, or v, a major and a minor number. */
  lemma CapExactly(s: string)
    ensures Cap(s) <==> exists major: nat, minor: string :: IsCapOf(s, major, minor)
  {
    if Cap(s) { var major, minor := CapHasParts(s); }
    if major: nat, minor: string :| IsCapOf(s, major, minor) { CapIsRecognised(s, major, minor); }
  }

  /** s is v, the decimal text of major, and nothing more or a dot and a decimal text. */
  ghost predicate IsCapOf(s: string, major: nat, minor: string) {
    s == ['v'] + (Decimal(major) + minor) && IsCapEnd(minor)
  }

  ghost predicate IsCapEnd(minor: string) {
    minor == "" || exists n: nat :: minor == ['.'] + Decimal(n)
  }

  lemma CapHasParts(s: string) returns (major: nat, minor: string)
    requires Cap(s)
    ensures IsCapOf(s, major, minor)
  {
    var rest := s[1..];
    var dot := IndexOf(rest, '.');
    assert s == ['v'] + rest && rest == rest[..dot] + rest[dot..];
    major := NumberHasValue(rest[..dot]);
    minor := rest[dot..];
    if dot < |rest| {
      assert minor[1..] == rest[dot + 1..];
      EndHasValue(minor);
    }
  }

  lemma EndHasValue(minor: string)
    requires minor != "" && minor[0] == '.' && Number(minor[1..])
    ensures IsCapEnd(minor)
  {
    var n := NumberHasValue(minor[1..]);
    assert minor == ['.'] + minor[1..];
  }

  lemma CapIsRecognised(s: string, major: nat, minor: string)
    requires IsCapOf(s, major, minor)
    ensures Cap(s)
  {
    var number := Decimal(major);
    DecimalIsNumber(major);
    IndexOfSkips(number, minor, '.');
    assert s[1..] == number + minor && s[1..][..|number|] == number;
    if minor != "" {
      var n: nat :| minor == ['.'] + Decimal(n);
      DecimalIsNumber(n);
      assert s[1..][|number| + 1..] == Decimal(n);
    }
  }

  /** An engine uri is one of two schemes and something after it that begins on the same line. */
  lemma UriExactly(s: string)
    ensures Uri(s) <==> exists rest :: rest != "" && rest[0] != '\n' && (s == "forge://" + rest || s == "alias://" + rest)
    ensures GoScheme(s) <==> exists rest :: s == "go://" + rest
  {
    if Uri(s) { assert s == s[..8] + s[8..]; }
    if GoScheme(s) { assert s == "go://" + s[5..]; }
  }

  lemma {:induction false} PortMapIsLast(engines: seq<Engine>, k: nat)
    requires k < |engines|
    requires forall i, j :: 0 <= j < i < |engines| ==> engines[j].alias != engines[i].alias
    ensures PortMap(engines)[engines[k].alias] == engines[k].port
  {
    var n := |engines| - 1;
    if k < n {
      PortMapIsLast(engines[..n], k);
      assert engines[..n][k] == engines[k];
    }
  }

  lemma AliasesAreUnique(p: Pipeline)
    requires EnginesOk(p)
    ensures forall i, j :: 0 <= j < i < |p.engines| ==> p.engines[j].alias != p.engines[i].alias
  {
    forall i, j | 0 <= j < i < |p.engines|
      ensures p.engines[j].alias != p.engines[i].alias
    {
      assert EngineOk(p, i);
    }
  }

  /** With unique aliases, what an alias stands for is what its engine declares. */
  lemma PortMapIsDeclared(engines: seq<Engine>, alias: string, port: string)
    requires forall i, j :: 0 <= j < i < |engines| ==> engines[j].alias != engines[i].alias
    ensures (exists k :: 0 <= k < |engines| && engines[k].alias == alias && engines[k].port == port) <==>
      alias in PortMap(engines) && PortMap(engines)[alias] == port
  {
    if k :| 0 <= k < |engines| && engines[k].alias == alias {
      PortMapIsLast(engines, k);
      assert forall i :: 0 <= i < |engines| && engines[i].alias == alias ==> i == k;
    }
  }

  lemma PortMapIsHasPort(p: Pipeline, alias: string, port: string)
    requires EnginesOk(p)
    ensures HasPort(p, alias, port) <==> alias in PortMap(p.engines) && PortMap(p.engines)[alias] == port
  {
    AliasesAreUnique(p);
    PortMapIsDeclared(p.engines, alias, port);
  }

  /** A graph with a cycle has a report. */
  lemma CyclesAreReported(names: seq<string>, needs: Needs) returns (left: seq<string>)
    requires HasCycle(Elements(names), needs)
    ensures CycleReport(names, needs, left)
  {
    var D := Elements(names);
    left := Listing(Core(D, needs));
    forall x
      ensures x in left <==> LeadsToCycle(D, needs, x)
    {
      CoreIsWhatLeadsToCycle(D, needs, x);
    }
  }

  lemma {:induction false} Least(names: set<string>) returns (least: string)
    requires names != {}
    ensures least in names && forall x :: x in names ==> x == least || Before(least, x)
    decreases |names|
  {
    least :| least in names;
    if names != {least} {
      var m := Least(names - {least});
      BeforeIsTotal(least, m);
      if Before(m, least) {
        least := m;
      } else {
        forall x | x in names
          ensures x == least || Before(least, x)
        {
          if x != least && x != m { BeforeIsTransitive(least, m, x); }
        }
      }
    }
  }

  lemma {:induction false} Listing(names: set<string>) returns (list: seq<string>)
    ensures Ascending(list) && forall x :: x in list <==> x in names
    decreases |names|
  {
    if names == {} {
      list := [];
    } else {
      var least := Least(names);
      var rest := Listing(names - {least});
      list := [least] + rest;
      forall i, j | 0 <= i < j < |list|
        ensures Before(list[i], list[j])
      {
        assert list[j] in rest;
        if i > 0 { assert Before(rest[i - 1], rest[j - 1]); }
      }
    }
  }
}
