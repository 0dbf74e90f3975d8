/**
 * The release protocol as steps on a shared world: any number of publish runs, interleaved in any
 * way, each of which may stop between any two steps, and each of whose writes may land and still
 * be reported as failed. The world refuses only what git refuses, a tag over an existing tag, and,
 * if its release store is of that kind, a second asset under a name.
 */
module Protocol {
  import opened Assets

  /** One repo to tag at one commit, in its checkout. Every clone is a checkout of its own. */
  datatype Member = Member(dir: string, sha: string)

  /** What a run sets out to release: one tag on every member, one release in home, these assets at least. */
  datatype Plan = Plan(home: string, tag: string, members: seq<Member>, assetNames: seq<string>)

  /** assets: the file under each name; a release has one to a name. */
  datatype Release = Release(home: string, tag: string, draft: bool, assets: map<string, string>)

  /**
   * origin: the remote each checkout pushes to, if it has one. remote and local: the commit under
   * each tag of a remote or of a checkout. A release is known by its position. overwrites: what the
   * release store does with a second asset under a name, replace the first or refuse it.
   */
  datatype World = World(
    origin: map<string, string>,
    remote: map<(string, string), string>,
    local: map<(string, string), string>,
    releases: seq<Release>,
    overwrites: bool)

  /** How a run ends. It is refused when it ends badly before its first write, broken when later. */
  datatype Result = Published | Converged | Refused | Broken

  /** Where inside Tag a run is. */
  datatype TagStep = AskRemote | AskLocal | Create | Push

  /** Where a run is, with what it carries along. */
  datatype Pc =
    | Checking(i: nat, pending: seq<Member>)
    | Looking(pending: seq<Member>)
    | Staging(pending: seq<Member>, found: bool)
    | Drafting(pending: seq<Member>, assets: seq<Staged>)
    | Uploading(pending: seq<Member>, assets: seq<Staged>, id: nat, k: nat)
    | Tagging(pending: seq<Member>, k: nat, draft: Option<nat>, at: TagStep)
    | Publishing(id: nat)
    | Halted(result: Result)

  datatype Proc = Proc(plan: Plan, pc: Pc)

  /** Which run created a release, and what it set out to attach. */
  datatype Owner = Owner(proc: nat, assets: seq<Staged>)

  /** The world, every run so far, and for each release who created it; None for one that was there before. */
  datatype Sys = Sys(w: World, procs: seq<Proc>, owners: seq<Option<Owner>>)

  // ------------------------------------------------------------ reading the world

  function RemoteOf(w: World, tag: string, m: Member): Option<string> {
    if m.dir in w.origin && (w.origin[m.dir], tag) in w.remote then Some(w.remote[(w.origin[m.dir], tag)]) else None
  }

  function LocalOf(w: World, tag: string, m: Member): Option<string> {
    if (m.dir, tag) in w.local then Some(w.local[(m.dir, tag)]) else None
  }

  /** The member carries the tag at its commit: on its remote when it has one, in the checkout otherwise. */
  predicate Carried(w: World, tag: string, m: Member) {
    if m.dir in w.origin then RemoteOf(w, tag, m) == Some(m.sha) else LocalOf(w, tag, m) == Some(m.sha)
  }

  predicate AllCarried(w: World, plan: Plan) {
    forall m :: m in plan.members ==> Carried(w, plan.tag, m)
  }

  predicate IsVisible(r: Release, home: string, tag: string) {
    !r.draft && r.home == home && r.tag == tag
  }

  /** The store answers a release under this tag: one that is no draft. */
  predicate VisibleUnder(w: World, home: string, tag: string) {
    exists id :: 0 <= id < |w.releases| && IsVisible(w.releases[id], home, tag)
  }

  /** The assets carry every name the plan asks for, and the index last. */
  predicate Whole(plan: Plan, assets: seq<Staged>) {
    && (forall n :: n in plan.assetNames ==> exists a :: a in assets && a.name == n)
    && assets != [] && assets[|assets| - 1].name == INDEX
  }

  /** Every asset is to be had under its name. */
  predicate Holds(r: Release, assets: seq<Staged>) {
    forall a :: a in assets ==> a.name in r.assets && r.assets[a.name] == a.path
  }

  /** The release store takes the asset. */
  predicate Accepts(w: World, id: nat, a: Staged)
    requires id < |w.releases|
  {
    w.overwrites || a.name !in w.releases[id].assets
  }

  /** The release store takes all of them, one after another. */
  predicate Attachable(w: World, assets: seq<Staged>) {
    w.overwrites || DistinctNames(assets)
  }

  // ------------------------------------------------------------ the writes

  function Drafted(w: World, home: string, tag: string): World {
    w.(releases := w.releases + [Release(home, tag, true, map[])])
  }

  function Attached(w: World, id: nat, a: Staged): World
    requires id < |w.releases|
  {
    w.(releases := w.releases[id := w.releases[id].(assets := w.releases[id].assets[a.name := a.path])])
  }

  function Shown(w: World, id: nat): World
    requires id < |w.releases|
  {
    w.(releases := w.releases[id := w.releases[id].(draft := false)])
  }

  function LocallyTagged(w: World, tag: string, m: Member): World {
    w.(local := w.local[(m.dir, tag) := m.sha])
  }

  /** git push origin <tag>: what the checkout has under the tag goes to the remote. */
  function Pushed(w: World, tag: string, m: Member): World
    requires m.dir in w.origin && (m.dir, tag) in w.local
  {
    w.(remote := w.remote[(w.origin[m.dir], tag) := w.local[(m.dir, tag)]])
  }

  // ------------------------------------------------------------ the steps

  function InPreflight(pc: Pc): bool {
    pc.Checking? || pc.Looking? || pc.Staging?
  }

  /** A call fails with nothing written, or the run dies here. */
  function Stopped(pc: Pc): Pc {
    Halted(if InPreflight(pc) then Refused else Broken)
  }

  function AfterTag(pc: Pc): Pc
    requires pc.Tagging?
  {
    pc.(k := pc.k + 1, at := AskRemote)
  }

  /** A read: what the next step is depends on the world, and the world stays as it is. */
  ghost predicate Reads(plan: Plan, pc: Pc, w: World, pc': Pc) {
    match pc
    case Checking(i, pending) =>
      if i >= |plan.members| then pc' == Looking(pending)
      else
        var m := plan.members[i];
        (match RemoteOf(w, plan.tag, m)
         case None => pc' == Checking(i + 1, pending + [m])
         case Some(at) => pc' == if at == m.sha then Checking(i + 1, pending) else Halted(Refused))
    case Looking(pending) =>
      var found := VisibleUnder(w, plan.home, plan.tag);
      pc' == if plan.members != [] && pending == [] && found then Halted(Converged) else Staging(pending, found)
    case Staging(pending, found) =>
      if found then pc' == Tagging(pending, 0, None, AskRemote)
      else pc'.Drafting? && pc'.pending == pending && Whole(plan, pc'.assets)
    case Uploading(pending, assets, id, k) =>
      k >= |assets| && pc' == Tagging(pending, 0, Some(id), AskRemote)
    case Tagging(pending, k, draft, at) =>
      if k >= |pending| then pc' == if draft.Some? then Publishing(draft.value) else Halted(Published)
      else TagReads(plan.tag, pending[k], pc, w, pc')
    case _ => false
  }

  ghost predicate TagReads(tag: string, m: Member, pc: Pc, w: World, pc': Pc)
    requires pc.Tagging?
  {
    match pc.at
    case AskRemote =>
      (match RemoteOf(w, tag, m)
       case None => pc' == pc.(at := AskLocal)
       case Some(at) => pc' == if at == m.sha then AfterTag(pc) else Halted(Broken))
    case AskLocal =>
      (match LocalOf(w, tag, m)
       case None => pc' == pc.(at := Create)
       case Some(at) =>
         pc' == if at != m.sha then Halted(Broken) else if m.dir in w.origin then pc.(at := Push) else AfterTag(pc))
    case Create => LocalOf(w, tag, m).Some? && pc' == Halted(Broken)
    case Push =>
      // A remote that has the tag takes no other object under it; at the same commit it may call that up to date.
      match RemoteOf(w, tag, m)
      case None => false
      case Some(at) => pc' == Halted(Broken) || (at == m.sha && pc' == AfterTag(pc))
  }

  /** A write lands. It may still be reported as failed, and then the run stops with the write in place. */
  ghost predicate Writes(plan: Plan, me: nat, pc: Pc, w: World, owners: seq<Option<Owner>>,
                         pc': Pc, w': World, owners': seq<Option<Owner>>) {
    match pc
    case Drafting(pending, assets) =>
      && w' == Drafted(w, plan.home, plan.tag)
      && owners' == owners + [Some(Owner(me, assets))]
      && (pc' == Uploading(pending, assets, |w.releases|, 0) || pc' == Halted(Broken))
    case Uploading(pending, assets, id, k) =>
      && k < |assets| && id < |w.releases| && Accepts(w, id, assets[k])
      && w' == Attached(w, id, assets[k])
      && owners' == owners
      && (pc' == Uploading(pending, assets, id, k + 1) || pc' == Halted(Broken))
    case Tagging(pending, k, draft, at) =>
      && owners' == owners
      && k < |pending|
      && TagWrites(plan.tag, pending[k], pc, w, pc', w')
    case Publishing(id) =>
      && id < |w.releases|
      && w' == Shown(w, id)
      && owners' == owners
      && (pc' == Halted(Published) || pc' == Halted(Broken))
    case _ => false
  }

  ghost predicate TagWrites(tag: string, m: Member, pc: Pc, w: World, pc': Pc, w': World)
    requires pc.Tagging?
  {
    match pc.at
    case Create =>
      && LocalOf(w, tag, m).None?
      && w' == LocallyTagged(w, tag, m)
      && (pc' == (if m.dir in w.origin then pc.(at := Push) else AfterTag(pc)) || pc' == Halted(Broken))
    case Push =>
      && RemoteOf(w, tag, m).None? && m.dir in w.origin && (m.dir, tag) in w.local
      && w' == Pushed(w, tag, m)
      && (pc' == AfterTag(pc) || pc' == Halted(Broken))
    case _ => false
  }

  /** One step of one run. */
  ghost predicate Moves(plan: Plan, me: nat, pc: Pc, w: World, owners: seq<Option<Owner>>,
                        pc': Pc, w': World, owners': seq<Option<Owner>>) {
    && !pc.Halted?
    && ((w' == w && owners' == owners && (pc' == Stopped(pc) || Reads(plan, pc, w, pc')))
        || Writes(plan, me, pc, w, owners, pc', w', owners'))
  }

  ghost predicate Spawns(s: Sys, s': Sys, plan: Plan) {
    s' == s.(procs := s.procs + [Proc(plan, Checking(0, []))])
  }

  ghost predicate Steps(s: Sys, s': Sys, p: nat) {
    && p < |s.procs| == |s'.procs|
    && s'.procs == s.procs[p := s.procs[p].(pc := s'.procs[p].pc)]
    && Moves(s.procs[p].plan, p, s.procs[p].pc, s.w, s.owners, s'.procs[p].pc, s'.w, s'.owners)
  }

  ghost predicate Next(s: Sys, s': Sys) {
    (exists plan :: Spawns(s, s', plan)) || (exists p: nat :: Steps(s, s', p))
  }

  /** Nothing runs yet; the world may hold any tags and any releases. */
  ghost predicate Init(s: Sys) {
    s.procs == [] && |s.owners| == |s.w.releases| && forall id :: 0 <= id < |s.owners| ==> s.owners[id].None?
  }

  ghost predicate Follows(h: seq<Sys>, i: nat) {
    i + 1 < |h| && Next(h[i], h[i + 1])
  }

  /** A history: it begins with nothing running and goes on one step at a time. */
  ghost predicate IsHistory(h: seq<Sys>) {
    h != [] && Init(h[0]) && forall i :: 0 <= i < |h| - 1 ==> Follows(h, i)
  }
}
