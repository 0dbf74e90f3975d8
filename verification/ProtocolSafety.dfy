/** What holds after every history of publish runs, however they interleave, fail or die. */
module ProtocolSafety {
  import opened Assets
  import opened Protocol

  // ------------------------------------------------------------ what only ever grows

  /** Tags stay where they are, a visible release stays visible, a name once attached stays attached. */
  ghost predicate Grows(w: World, w': World) {
    && w'.origin == w.origin && w'.overwrites == w.overwrites
    && (forall key :: key in w.remote ==> key in w'.remote && w'.remote[key] == w.remote[key])
    && (forall key :: key in w.local ==> key in w'.local && w'.local[key] == w.local[key])
    && |w.releases| <= |w'.releases|
    && (forall id :: 0 <= id < |w.releases| ==> ReleaseGrows(w.releases[id], w'.releases[id], w.overwrites))
  }

  ghost predicate ReleaseGrows(r: Release, r': Release, overwrites: bool) {
    && r'.home == r.home && r'.tag == r.tag && (r'.draft ==> r.draft)
    && forall n :: n in r.assets ==> n in r'.assets && (!overwrites ==> r'.assets[n] == r.assets[n])
  }

  lemma WriteGrows(plan: Plan, me: nat, pc: Pc, w: World, owners: seq<Option<Owner>>,
                   pc': Pc, w': World, owners': seq<Option<Owner>>)
    requires Writes(plan, me, pc, w, owners, pc', w', owners')
    ensures Grows(w, w')
  {
  }

  lemma StepGrows(s: Sys, s': Sys)
    requires Next(s, s')
    ensures Grows(s.w, s'.w)
  {
    if p: nat :| Steps(s, s', p) {
      if s'.w != s.w {
        WriteGrows(s.procs[p].plan, p, s.procs[p].pc, s.w, s.owners, s'.procs[p].pc, s'.w, s'.owners);
      }
    }
  }

  lemma OneMoreStep(h: seq<Sys>, s: Sys)
    requires IsHistory(h) && Next(h[|h| - 1], s)
    ensures IsHistory(h + [s])
  {
    var h' := h + [s];
    forall i | 0 <= i < |h'| - 1
      ensures Follows(h', i)
    {
      if i < |h| - 1 { assert Follows(h, i); }
    }
  }

  lemma GrowsOn(a: World, b: World, c: World)
    requires Grows(a, b) && Grows(b, c)
    ensures Grows(a, c)
  {
    forall id | 0 <= id < |a.releases|
      ensures ReleaseGrows(a.releases[id], c.releases[id], a.overwrites)
    {
      assert ReleaseGrows(a.releases[id], b.releases[id], a.overwrites);
      assert ReleaseGrows(b.releases[id], c.releases[id], a.overwrites);
    }
  }

  /** Induction over a history: what holds at i and is kept by every step from there holds at j. */
  lemma {:induction false} Always(h: seq<Sys>, i: nat, j: nat, P: Sys -> bool)
    requires i <= j < |h| && P(h[i])
    requires forall k :: i <= k < j && P(h[k]) ==> P(h[k + 1])
    ensures P(h[j])
    decreases j - i
  {
    if i < j {
      Always(h, i, j - 1, P);
      assert P(h[j - 1]) ==> P(h[j - 1 + 1]);
    }
  }

  lemma GrowsNot(w: World)
    ensures Grows(w, w)
  {
  }

  lemma HistoryGrows(h: seq<Sys>, i: nat, j: nat)
    requires IsHistory(h) && i <= j < |h|
    ensures Grows(h[i].w, h[j].w)
  {
    GrowsNot(h[i].w);
    forall k | i <= k < j && Grows(h[i].w, h[k].w)
      ensures Grows(h[i].w, h[k + 1].w)
    {
      assert Follows(h, k);
      StepGrows(h[k], h[k + 1]);
      GrowsOn(h[i].w, h[k].w, h[k + 1].w);
    }
    Always(h, i, j, (s: Sys) => Grows(h[i].w, s.w));
  }

  /** Tags never move: in no history does a tag that exists, here or on a remote, change its commit or vanish. */
  lemma TagsNeverMove(h: seq<Sys>, i: nat, j: nat, key: (string, string))
    requires IsHistory(h) && i <= j < |h|
    ensures key in h[i].w.remote ==> key in h[j].w.remote && h[j].w.remote[key] == h[i].w.remote[key]
    ensures key in h[i].w.local ==> key in h[j].w.local && h[j].w.local[key] == h[i].w.local[key]
  {
    HistoryGrows(h, i, j);
  }

  lemma CarriedStays(w: World, w': World, tag: string, m: Member)
    requires Grows(w, w') && Carried(w, tag, m)
    ensures Carried(w', tag, m)
  {
  }

  /** The members still to be tagged never become more. */
  lemma UntaggedNeverGrows(h: seq<Sys>, i: nat, j: nat, tag: string, m: Member)
    requires IsHistory(h) && i <= j < |h|
    requires !Carried(h[j].w, tag, m)
    ensures !Carried(h[i].w, tag, m)
  {
    HistoryGrows(h, i, j);
    if Carried(h[i].w, tag, m) { CarriedStays(h[i].w, h[j].w, tag, m); }
  }

  lemma VisibleStays(w: World, w': World, home: string, tag: string)
    requires Grows(w, w') && VisibleUnder(w, home, tag)
    ensures VisibleUnder(w', home, tag)
  {
    var id :| 0 <= id < |w.releases| && IsVisible(w.releases[id], home, tag);
    assert ReleaseGrows(w.releases[id], w'.releases[id], w.overwrites);
    assert IsVisible(w'.releases[id], home, tag);
  }

  // ------------------------------------------------------------ the invariant of one run

  /** The first n members are carried, or the run still has them on its list, and it has no others there. */
  ghost predicate Accounted(w: World, plan: Plan, n: nat, todo: seq<Member>) {
    && (forall m :: m in todo ==> m in plan.members)
    && forall i :: 0 <= i < n && i < |plan.members| ==>
      plan.members[i] in todo || Carried(w, plan.tag, plan.members[i])
  }

  /** The release holds these assets and nothing else, attached in order. */
  ghost predicate IsMadeOf(w: World, r: Release, assets: seq<Staged>) {
    r.assets == Named(assets) && Attachable(w, assets)
  }

  /** The release is this run's own draft, with the first k assets attached. */
  ghost predicate OwnDraft(w: World, owners: seq<Option<Owner>>, me: nat, plan: Plan, id: nat, assets: seq<Staged>, k: nat) {
    && id < |w.releases| && id < |owners| && owners[id] == Some(Owner(me, assets))
    && Whole(plan, assets)
    && w.releases[id].home == plan.home && w.releases[id].tag == plan.tag && w.releases[id].draft
    && k <= |assets| && IsMadeOf(w, w.releases[id], assets[..k])
  }

  ghost predicate OwnFullDraft(w: World, owners: seq<Option<Owner>>, me: nat, plan: Plan, id: nat) {
    && id < |owners| && owners[id].Some?
    && OwnDraft(w, owners, me, plan, id, owners[id].value.assets, |owners[id].value.assets|)
  }

  ghost predicate Owns(owners: seq<Option<Owner>>, me: nat, id: nat) {
    id < |owners| && owners[id].Some? && owners[id].value.proc == me
  }

  ghost predicate OwnsNothing(owners: seq<Option<Owner>>, me: nat) {
    forall id: nat :: !Owns(owners, me, id)
  }

  ghost predicate OwnsOnly(owners: seq<Option<Owner>>, me: nat, only: nat) {
    forall id: nat :: Owns(owners, me, id) ==> id == only
  }

  ghost predicate OwnsAtMostOne(owners: seq<Option<Owner>>, me: nat) {
    forall id: nat, id': nat :: Owns(owners, me, id) && Owns(owners, me, id') ==> id == id'
  }

  /** What a run relies on at each point. */
  ghost predicate RunInv(w: World, owners: seq<Option<Owner>>, me: nat, plan: Plan, pc: Pc) {
    var all := |plan.members|;
    match pc
    case Checking(i, pending) => i <= all && Accounted(w, plan, i, pending) && OwnsNothing(owners, me)
    case Looking(pending) => Accounted(w, plan, all, pending) && OwnsNothing(owners, me)
    case Staging(pending, found) =>
      && Accounted(w, plan, all, pending) && OwnsNothing(owners, me)
      && (found ==> VisibleUnder(w, plan.home, plan.tag))
    case Drafting(pending, assets) => Accounted(w, plan, all, pending) && OwnsNothing(owners, me) && Whole(plan, assets)
    case Uploading(pending, assets, id, k) =>
      && Accounted(w, plan, all, pending) && OwnsOnly(owners, me, id)
      && OwnDraft(w, owners, me, plan, id, assets, k)
    case Tagging(pending, k, draft, at) =>
      && k <= |pending| && Accounted(w, plan, all, pending[k..])
      && (if draft.Some? then OwnFullDraft(w, owners, me, plan, draft.value) && OwnsOnly(owners, me, draft.value)
          else VisibleUnder(w, plan.home, plan.tag) && OwnsNothing(owners, me))
      && (at.Push? ==> k < |pending| && pending[k].dir in w.origin && LocalOf(w, plan.tag, pending[k]) == Some(pending[k].sha))
    case Publishing(id) => AllCarried(w, plan) && OwnFullDraft(w, owners, me, plan, id) && OwnsOnly(owners, me, id)
    case Halted(result) =>
      && OwnsAtMostOne(owners, me)
      && (result.Published? || result.Converged? ==> AllCarried(w, plan) && VisibleUnder(w, plan.home, plan.tag))
      && (result.Refused? || result.Converged? ==> OwnsNothing(owners, me))
      && (result.Published? ==> ShowsOwn(w, owners, me))
  }

  /** Whatever release the run made is visible. */
  ghost predicate ShowsOwn(w: World, owners: seq<Option<Owner>>, me: nat) {
    forall id: nat :: Owns(owners, me, id) ==> id < |w.releases| && !w.releases[id].draft
  }

  /** A release a run published is whole, and every member of that run's plan carries the tag. */
  ghost predicate ReleaseInv(s: Sys, id: nat)
    requires id < |s.w.releases| && id < |s.owners|
  {
    s.owners[id].Some? ==>
      var o := s.owners[id].value;
      var r := s.w.releases[id];
      && o.proc < |s.procs|
      && var plan := s.procs[o.proc].plan;
         r.home == plan.home && r.tag == plan.tag && Whole(plan, o.assets)
         && (!r.draft ==> AllCarried(s.w, plan) && IsMadeOf(s.w, r, o.assets))
  }

  ghost predicate Inv(s: Sys) {
    && |s.owners| == |s.w.releases|
    && (forall id :: 0 <= id < |s.owners| ==> ReleaseInv(s, id))
    && (forall p :: 0 <= p < |s.procs| ==> RunInv(s.w, s.owners, p, s.procs[p].plan, s.procs[p].pc))
  }

  // ------------------------------------------------------------ it is kept by the run that moves

  lemma AccountedGrows(w: World, w': World, plan: Plan, n: nat, todo: seq<Member>)
    requires Grows(w, w') && Accounted(w, plan, n, todo)
    ensures Accounted(w', plan, n, todo)
  {
    forall i | 0 <= i < n && i < |plan.members| && plan.members[i] !in todo
      ensures Carried(w', plan.tag, plan.members[i])
    {
      CarriedStays(w, w', plan.tag, plan.members[i]);
    }
  }

  /** The member just tagged comes off the list. */
  lemma AccountedNext(w: World, plan: Plan, pending: seq<Member>, k: nat)
    requires k < |pending| && Accounted(w, plan, |plan.members|, pending[k..])
    requires Carried(w, plan.tag, pending[k])
    ensures Accounted(w, plan, |plan.members|, pending[k + 1..])
  {
    assert pending[k..] == [pending[k]] + pending[k + 1..];
  }

  lemma StopKeeps(w: World, owners: seq<Option<Owner>>, me: nat, plan: Plan, pc: Pc)
    requires RunInv(w, owners, me, plan, pc) && !pc.Halted?
    ensures RunInv(w, owners, me, plan, Stopped(pc))
    ensures OwnsAtMostOne(owners, me)
  {
  }

  lemma TagReadKeeps(w: World, owners: seq<Option<Owner>>, me: nat, plan: Plan, pc: Pc, pc': Pc)
    requires RunInv(w, owners, me, plan, pc) && pc.Tagging? && pc.k < |pc.pending|
    requires TagReads(plan.tag, pc.pending[pc.k], pc, w, pc')
    ensures RunInv(w, owners, me, plan, pc')
  {
    StopKeeps(w, owners, me, plan, pc);
    if pc' == AfterTag(pc) {
      AccountedNext(w, plan, pc.pending, pc.k);
    }
  }

  lemma ReadKeeps(w: World, owners: seq<Option<Owner>>, me: nat, plan: Plan, pc: Pc, pc': Pc)
    requires RunInv(w, owners, me, plan, pc)
    requires Reads(plan, pc, w, pc')
    ensures RunInv(w, owners, me, plan, pc')
  {
    match pc
    case Checking(i, pending) =>
    case Looking(pending) =>
    case Staging(pending, found) =>
      assert pending[0..] == pending;
    case Uploading(pending, assets, id, k) =>
      assert pending[0..] == pending;
      assert assets[..k] == assets;
    case Tagging(pending, k, draft, at) =>
      if k < |pending| {
        TagReadKeeps(w, owners, me, plan, pc, pc');
      } else {
        assert AllCarried(w, plan);
      }
    case _ =>
  }

  lemma TagWriteKeeps(w: World, owners: seq<Option<Owner>>, me: nat, plan: Plan, pc: Pc, pc': Pc, w': World)
    requires RunInv(w, owners, me, plan, pc) && pc.Tagging? && pc.k < |pc.pending|
    requires TagWrites(plan.tag, pc.pending[pc.k], pc, w, pc', w')
    ensures RunInv(w', owners, me, plan, pc')
  {
    WriteGrows(plan, me, pc, w, owners, pc', w', owners);
    AccountedGrows(w, w', plan, |plan.members|, pc.pending[pc.k..]);
    assert w'.releases == w.releases;
    if pc.draft.None? { VisibleStays(w, w', plan.home, plan.tag); }
    if pc' == AfterTag(pc) {
      AccountedNext(w', plan, pc.pending, pc.k);
    }
  }

  lemma DraftKeeps(w: World, owners: seq<Option<Owner>>, me: nat, plan: Plan, pc: Pc,
                   pc': Pc, w': World, owners': seq<Option<Owner>>)
    requires |owners| == |w.releases| && RunInv(w, owners, me, plan, pc) && pc.Drafting?
    requires Writes(plan, me, pc, w, owners, pc', w', owners')
    ensures RunInv(w', owners', me, plan, pc')
  {
    var id := |owners|;
    forall other: nat | other < id
      ensures !Owns(owners', me, other)
    {
      assert !Owns(owners, me, other) && owners'[other] == owners[other];
    }
    AccountedGrows(w, w', plan, |plan.members|, pc.pending);
  }

  lemma OneMoreAttached(w: World, r: Release, assets: seq<Staged>, k: nat)
    requires k < |assets| && IsMadeOf(w, r, assets[..k]) && (w.overwrites || assets[k].name !in r.assets)
    ensures IsMadeOf(w, r.(assets := r.assets[assets[k].name := assets[k].path]), assets[..k + 1])
  {
    var front, more := assets[..k], assets[..k + 1];
    assert more[..k] == front;
    NamedHasAll(front);
    if !w.overwrites {
      forall i | 0 <= i < k
        ensures more[i].name != more[k].name
      {
        assert front[i] in front;
      }
    }
  }

  lemma UploadKeeps(w: World, owners: seq<Option<Owner>>, me: nat, plan: Plan, pc: Pc, pc': Pc, w': World)
    requires RunInv(w, owners, me, plan, pc) && pc.Uploading?
    requires Writes(plan, me, pc, w, owners, pc', w', owners)
    ensures RunInv(w', owners, me, plan, pc')
  {
    AccountedGrows(w, w', plan, |plan.members|, pc.pending);
    OneMoreAttached(w, w.releases[pc.id], pc.assets, pc.k);
  }

  lemma ShowKeeps(w: World, owners: seq<Option<Owner>>, me: nat, plan: Plan, pc: Pc, pc': Pc, w': World)
    requires RunInv(w, owners, me, plan, pc) && pc.Publishing?
    requires Writes(plan, me, pc, w, owners, pc', w', owners)
    ensures RunInv(w', owners, me, plan, pc')
  {
    assert IsVisible(w'.releases[pc.id], plan.home, plan.tag);
  }

  lemma OwnMoveKeepsRun(s: Sys, s': Sys, p: nat)
    requires Inv(s) && Steps(s, s', p)
    ensures RunInv(s'.w, s'.owners, p, s'.procs[p].plan, s'.procs[p].pc)
  {
    var plan, pc, pc' := s.procs[p].plan, s.procs[p].pc, s'.procs[p].pc;
    assert RunInv(s.w, s.owners, p, plan, pc);
    if pc' == Stopped(pc) && s'.w == s.w && s'.owners == s.owners {
      StopKeeps(s.w, s.owners, p, plan, pc);
    } else if Reads(plan, pc, s.w, pc') && s'.w == s.w && s'.owners == s.owners {
      ReadKeeps(s.w, s.owners, p, plan, pc, pc');
    } else {
      match pc
      case Drafting(_, _) => DraftKeeps(s.w, s.owners, p, plan, pc, pc', s'.w, s'.owners);
      case Uploading(_, _, _, _) => UploadKeeps(s.w, s.owners, p, plan, pc, pc', s'.w);
      case Tagging(_, _, _, _) => TagWriteKeeps(s.w, s.owners, p, plan, pc, pc', s'.w);
      case Publishing(_) => ShowKeeps(s.w, s.owners, p, plan, pc, pc', s'.w);
    }
  }

  // ------------------------------------------------------------ it is kept for the other runs

  /** Owners are only added, and what belongs to me stays as it is. */
  ghost predicate LeavesMine(w: World, owners: seq<Option<Owner>>, w': World, owners': seq<Option<Owner>>, me: nat) {
    && owners <= owners' && w'.overwrites == w.overwrites
    && (forall id: nat :: Owns(owners', me, id) ==> Owns(owners, me, id))
    && (forall id: nat :: Owns(owners, me, id) && id < |w.releases| ==> id < |w'.releases| && w'.releases[id] == w.releases[id])
  }

  lemma OthersLeaveMine(s: Sys, s': Sys, p: nat, q: nat)
    requires Inv(s) && Steps(s, s', p) && q != p && q < |s.procs|
    ensures LeavesMine(s.w, s.owners, s'.w, s'.owners, q)
  {
    var plan, pc := s.procs[p].plan, s.procs[p].pc;
    assert RunInv(s.w, s.owners, p, plan, pc);
    forall id: nat | Owns(s'.owners, q, id)
      ensures Owns(s.owners, q, id)
    {
    }
  }

  lemma OwnDraftLeft(w: World, owners: seq<Option<Owner>>, w': World, owners': seq<Option<Owner>>,
                     me: nat, plan: Plan, id: nat, assets: seq<Staged>, k: nat)
    requires LeavesMine(w, owners, w', owners', me) && OwnDraft(w, owners, me, plan, id, assets, k)
    ensures OwnDraft(w', owners', me, plan, id, assets, k)
  {
    assert Owns(owners, me, id);
    assert owners'[id] == owners[id];
  }

  lemma OtherMoveKeepsRun(w: World, owners: seq<Option<Owner>>, w': World, owners': seq<Option<Owner>>,
                          me: nat, plan: Plan, pc: Pc)
    requires RunInv(w, owners, me, plan, pc)
    requires Grows(w, w') && LeavesMine(w, owners, w', owners', me)
    ensures RunInv(w', owners', me, plan, pc)
  {
    var all := |plan.members|;
    if VisibleUnder(w, plan.home, plan.tag) { VisibleStays(w, w', plan.home, plan.tag); }
    match pc
    case Checking(i, pending) => AccountedGrows(w, w', plan, i, pending);
    case Looking(pending) => AccountedGrows(w, w', plan, all, pending);
    case Staging(pending, found) => AccountedGrows(w, w', plan, all, pending);
    case Drafting(pending, assets) => AccountedGrows(w, w', plan, all, pending);
    case Uploading(pending, assets, id, k) =>
      AccountedGrows(w, w', plan, all, pending);
      OwnDraftLeft(w, owners, w', owners', me, plan, id, assets, k);
    case Tagging(pending, k, draft, at) =>
      AccountedGrows(w, w', plan, all, pending[k..]);
      if draft.Some? {
        var mine := owners[draft.value].value.assets;
        OwnDraftLeft(w, owners, w', owners', me, plan, draft.value, mine, |mine|);
      }
    case Publishing(id) =>
      var mine := owners[id].value.assets;
      OwnDraftLeft(w, owners, w', owners', me, plan, id, mine, |mine|);
      AllCarriedStays(w, w', plan);
    case Halted(result) =>
      if AllCarried(w, plan) { AllCarriedStays(w, w', plan); }
  }

  lemma AllCarriedStays(w: World, w': World, plan: Plan)
    requires Grows(w, w') && AllCarried(w, plan)
    ensures AllCarried(w', plan)
  {
    forall m | m in plan.members
      ensures Carried(w', plan.tag, m)
    {
      CarriedStays(w, w', plan.tag, m);
    }
  }

  // ------------------------------------------------------------ it is kept for the releases

  /** A visible release is never written to again. */
  lemma VisibleStaysAsItIs(s: Sys, s': Sys, p: nat, id: nat)
    requires Inv(s) && Steps(s, s', p) && id < |s.w.releases| && !s.w.releases[id].draft
    ensures id < |s'.w.releases| && s'.w.releases[id] == s.w.releases[id]
  {
    assert RunInv(s.w, s.owners, p, s.procs[p].plan, s.procs[p].pc);
  }

  lemma MoveKeepsRelease(s: Sys, s': Sys, p: nat, id: nat)
    requires Inv(s) && Steps(s, s', p)
    requires Grows(s.w, s'.w) && |s'.owners| == |s'.w.releases| && id < |s'.owners|
    ensures ReleaseInv(s', id)
  {
    var plan, pc := s.procs[p].plan, s.procs[p].pc;
    assert RunInv(s.w, s.owners, p, plan, pc);
    assert forall q :: 0 <= q < |s.procs| ==> s'.procs[q].plan == s.procs[q].plan;
    if id < |s.owners| {
      assert ReleaseInv(s, id) && s'.owners[id] == s.owners[id] && s'.w.overwrites == s.w.overwrites;
      assert ReleaseGrows(s.w.releases[id], s'.w.releases[id], s.w.overwrites);
      if s.owners[id].Some? {
        var o := s.owners[id].value;
        if !s.w.releases[id].draft {
          VisibleStaysAsItIs(s, s', p, id);
          AllCarriedStays(s.w, s'.w, s.procs[o.proc].plan);
        } else if !s'.w.releases[id].draft {
          assert pc == Publishing(id);
          AllCarriedStays(s.w, s'.w, plan);
          assert o.assets[..|o.assets|] == o.assets;
        }
      }
    }
  }

  lemma StepKeepsLength(s: Sys, s': Sys, p: nat)
    requires |s.owners| == |s.w.releases| && Steps(s, s', p)
    ensures |s'.owners| == |s'.w.releases|
  {
  }

  lemma MoveKeepsInv(s: Sys, s': Sys, p: nat)
    requires Inv(s) && Steps(s, s', p)
    ensures Inv(s')
  {
    StepGrows(s, s');
    StepKeepsLength(s, s', p);
    forall id | 0 <= id < |s'.owners|
      ensures ReleaseInv(s', id)
    {
      MoveKeepsRelease(s, s', p, id);
    }
    forall q | 0 <= q < |s'.procs|
      ensures RunInv(s'.w, s'.owners, q, s'.procs[q].plan, s'.procs[q].pc)
    {
      if q == p {
        OwnMoveKeepsRun(s, s', p);
      } else {
        OthersLeaveMine(s, s', p, q);
        OtherMoveKeepsRun(s.w, s.owners, s'.w, s'.owners, q, s.procs[q].plan, s.procs[q].pc);
      }
    }
  }

  lemma SpawnKeepsInv(s: Sys, s': Sys, plan: Plan)
    requires Inv(s) && Spawns(s, s', plan)
    ensures Inv(s')
  {
    var n := |s.procs|;
    forall id | 0 <= id < |s.owners|
      ensures ReleaseInv(s', id)
    {
      assert ReleaseInv(s, id);
    }
    forall id: nat
      ensures !Owns(s.owners, n, id)
    {
      if id < |s.owners| { assert ReleaseInv(s, id); }
    }
    assert forall p :: 0 <= p < n ==> s'.procs[p] == s.procs[p];
  }

  lemma NextKeepsInv(s: Sys, s': Sys)
    requires Inv(s) && Next(s, s')
    ensures Inv(s')
  {
    if p: nat :| Steps(s, s', p) {
      MoveKeepsInv(s, s', p);
    } else {
      var plan :| Spawns(s, s', plan);
      SpawnKeepsInv(s, s', plan);
    }
  }

  lemma {:induction false} InvAlways(h: seq<Sys>, i: nat)
    requires IsHistory(h) && i < |h|
    ensures Inv(h[i])
  {
    if i > 0 {
      InvAlways(h, i - 1);
      assert Follows(h, i - 1);
      NextKeepsInv(h[i - 1], h[i]);
    }
  }

  // ------------------------------------------------------------ the results

  /** What a release made of the assets holds: each of them under its name exactly when no two clash. */
  lemma MadeOfHolds(w: World, r: Release, assets: seq<Staged>)
    requires IsMadeOf(w, r, assets)
    ensures Holds(r, assets) <==> NoClash(assets)
    ensures !w.overwrites ==> Holds(r, assets)
  {
    NamedHoldsExactly(assets);
    if !w.overwrites { DistinctNamesDoNotClash(assets); }
  }

  /**
   * Release safety: in every history, a release that some run made visible is made of exactly the assets
   * that run set out to attach, the index among them, and every member of that run's plan carries the tag
   * at its planned commit. It holds every asset exactly when no two clash, and a store that refuses a
   * second asset under a name lets nothing else become visible.
   */
  lemma VisibleReleasesAreWhole(h: seq<Sys>, i: nat, id: nat)
    requires IsHistory(h) && i < |h| && id < |h[i].w.releases|
    ensures |h[i].owners| == |h[i].w.releases|
    ensures h[i].owners[id].Some? && !h[i].w.releases[id].draft ==>
      var o := h[i].owners[id].value;
      && o.proc < |h[i].procs|
      && var plan := h[i].procs[o.proc].plan;
         && h[i].w.releases[id].home == plan.home && h[i].w.releases[id].tag == plan.tag
         && AllCarried(h[i].w, plan)
         && Whole(plan, o.assets) && IsMadeOf(h[i].w, h[i].w.releases[id], o.assets)
         && (Holds(h[i].w.releases[id], o.assets) <==> NoClash(o.assets))
         && (!h[i].w.overwrites ==> Holds(h[i].w.releases[id], o.assets))
  {
    InvAlways(h, i);
    assert ReleaseInv(h[i], id);
    if h[i].owners[id].Some? && !h[i].w.releases[id].draft {
      MadeOfHolds(h[i].w, h[i].w.releases[id], h[i].owners[id].value.assets);
    }
  }

  /** A run that reports success, now or as already done, leaves all its members tagged and a visible release. */
  lemma SuccessMeansReleased(h: seq<Sys>, i: nat, p: nat)
    requires IsHistory(h) && i < |h| && p < |h[i].procs|
    requires h[i].procs[p].pc == Halted(Published) || h[i].procs[p].pc == Halted(Converged)
    ensures AllCarried(h[i].w, h[i].procs[p].plan)
    ensures VisibleUnder(h[i].w, h[i].procs[p].plan.home, h[i].procs[p].plan.tag)
  {
    InvAlways(h, i);
    assert RunInv(h[i].w, h[i].owners, p, h[i].procs[p].plan, h[i].procs[p].pc);
  }

  /** And the release it made, if it made one, is visible and made of what it set out to attach. */
  lemma SuccessShowsItsRelease(h: seq<Sys>, i: nat, p: nat, id: nat)
    requires IsHistory(h) && i < |h| && p < |h[i].procs| && h[i].procs[p].pc == Halted(Published)
    requires Owns(h[i].owners, p, id)
    ensures id < |h[i].w.releases| && IsVisible(h[i].w.releases[id], h[i].procs[p].plan.home, h[i].procs[p].plan.tag)
    ensures IsMadeOf(h[i].w, h[i].w.releases[id], h[i].owners[id].value.assets)
  {
    InvAlways(h, i);
    assert RunInv(h[i].w, h[i].owners, p, h[i].procs[p].plan, h[i].procs[p].pc);
    assert ReleaseInv(h[i], id);
  }

  /** One run adds at most one release. */
  lemma OneDraftPerRun(h: seq<Sys>, i: nat, p: nat, id: nat, id': nat)
    requires IsHistory(h) && i < |h| && p < |h[i].procs|
    requires Owns(h[i].owners, p, id) && Owns(h[i].owners, p, id')
    ensures id == id'
  {
    InvAlways(h, i);
    assert RunInv(h[i].w, h[i].owners, p, h[i].procs[p].plan, h[i].procs[p].pc);
  }

  /** Preflight only reads: a run still in it, refused by it, or converged has created nothing. */
  lemma PreflightCreatesNothing(h: seq<Sys>, i: nat, p: nat)
    requires IsHistory(h) && i < |h| && p < |h[i].procs|
    requires InPreflight(h[i].procs[p].pc) || h[i].procs[p].pc == Halted(Refused) || h[i].procs[p].pc == Halted(Converged)
    ensures OwnsNothing(h[i].owners, p)
  {
    InvAlways(h, i);
    assert RunInv(h[i].w, h[i].owners, p, h[i].procs[p].plan, h[i].procs[p].pc);
  }

  /** The run is past preflight: it has begun to write, or ended after that. */
  predicate PastPreflight(pc: Pc) {
    !InPreflight(pc) && pc != Halted(Refused) && pc != Halted(Converged)
  }

  lemma PreflightStepReads(s: Sys, s': Sys, p: nat)
    requires Steps(s, s', p)
    ensures InPreflight(s.procs[p].pc) ==> s'.w == s.w && s'.owners == s.owners
    ensures PastPreflight(s.procs[p].pc) ==> PastPreflight(s'.procs[p].pc)
  {
  }

  lemma PastPreflightStays(s: Sys, s': Sys, p: nat)
    requires Next(s, s') && p < |s.procs| && PastPreflight(s.procs[p].pc)
    ensures p < |s'.procs| && PastPreflight(s'.procs[p].pc)
  {
    if q: nat :| Steps(s, s', q) {
      if q == p { PreflightStepReads(s, s', p); } else { assert s'.procs[p] == s.procs[p]; }
    } else {
      var plan :| Spawns(s, s', plan);
      assert s'.procs[p] == s.procs[p];
    }
  }

  lemma PastPreflightAlways(h: seq<Sys>, i: nat, j: nat, p: nat)
    requires IsHistory(h) && i <= j < |h| && p < |h[i].procs| && PastPreflight(h[i].procs[p].pc)
    ensures p < |h[j].procs| && PastPreflight(h[j].procs[p].pc)
  {
    var P := (s: Sys) => p < |s.procs| && PastPreflight(s.procs[p].pc);
    forall k | i <= k < j && P(h[k])
      ensures P(h[k + 1])
    {
      assert Follows(h, k);
      PastPreflightStays(h[k], h[k + 1], p);
    }
    Always(h, i, j, P);
  }

  /**
   * Preflight atomicity, whatever else goes on: a run that ends refused, or has nothing to do, changed
   * no remote, no checkout and no release in any of its steps.
   */
  lemma RefusedRunsWroteNothing(h: seq<Sys>, i: nat, j: nat, p: nat)
    requires IsHistory(h) && i < j < |h| && Steps(h[i], h[i + 1], p)
    requires p < |h[j].procs| && h[j].procs[p].pc in {Halted(Refused), Halted(Converged)}
    ensures h[i + 1].w == h[i].w
  {
    PreflightStepReads(h[i], h[i + 1], p);
    if PastPreflight(h[i].procs[p].pc) {
      PastPreflightAlways(h, i, j, p);
    }
  }

  /** The run is past preflight, and whatever release it makes or made is for these assets. */
  ghost predicate IsFor(s: Sys, p: nat, assets: seq<Staged>) {
    && p < |s.procs| && PastPreflight(s.procs[p].pc)
    && (s.procs[p].pc.Drafting? ==> s.procs[p].pc.assets == assets)
    && forall id: nat :: Owns(s.owners, p, id) ==> s.owners[id].value.assets == assets
  }

  lemma IsForStays(s: Sys, s': Sys, p: nat, assets: seq<Staged>)
    requires Next(s, s') && IsFor(s, p, assets)
    ensures IsFor(s', p, assets)
  {
    if q: nat :| Steps(s, s', q) {
      if q != p { assert s'.procs[p] == s.procs[p]; }
      forall id: nat | Owns(s'.owners, p, id)
        ensures s'.owners[id].value.assets == assets
      {
        if id < |s.owners| { assert s'.owners[id] == s.owners[id]; }
      }
    } else {
      var plan :| Spawns(s, s', plan);
      assert s'.procs[p] == s.procs[p];
    }
  }

  /** What a run staged is what it attaches: any release it makes from here on is for these assets. */
  lemma ReleasesAreForWhatWasStaged(h: seq<Sys>, i: nat, j: nat, p: nat, pending: seq<Member>, assets: seq<Staged>, id: nat)
    requires IsHistory(h) && i <= j < |h| && p < |h[i].procs|
    requires h[i].procs[p].pc == Drafting(pending, assets) || h[i].procs[p].pc == Tagging(pending, 0, None, AskRemote)
    requires Owns(h[j].owners, p, id)
    ensures h[j].owners[id].value.assets == assets
  {
    InvAlways(h, i);
    assert RunInv(h[i].w, h[i].owners, p, h[i].procs[p].plan, h[i].procs[p].pc);
    forall k | i <= k < j && IsFor(h[k], p, assets)
      ensures IsFor(h[k + 1], p, assets)
    {
      assert Follows(h, k);
      IsForStays(h[k], h[k + 1], p, assets);
    }
    Always(h, i, j, (s: Sys) => IsFor(s, p, assets));
  }

  /** A draft nobody is working on: it was there before, or the run that made it has ended. */
  ghost predicate IsOrphan(s: Sys, id: nat) {
    && id < |s.w.releases| && id < |s.owners| && s.w.releases[id].draft
    && (s.owners[id].Some? ==> s.owners[id].value.proc < |s.procs| && s.procs[s.owners[id].value.proc].pc.Halted?)
  }

  lemma OrphanStaysByOne(s: Sys, s': Sys, id: nat)
    requires Inv(s) && Next(s, s') && IsOrphan(s, id)
    ensures IsOrphan(s', id) && s'.w.releases[id] == s.w.releases[id]
  {
    if p: nat :| Steps(s, s', p) {
      assert RunInv(s.w, s.owners, p, s.procs[p].plan, s.procs[p].pc);
    }
  }

  /** An orphan draft stays a draft, as it is, in whatever happens later. */
  lemma OrphanDraftsStayDrafts(h: seq<Sys>, i: nat, j: nat, id: nat)
    requires IsHistory(h) && i <= j < |h| && IsOrphan(h[i], id)
    ensures IsOrphan(h[j], id) && h[j].w.releases[id] == h[i].w.releases[id]
  {
    var P := (s: Sys) => IsOrphan(s, id) && s.w.releases[id] == h[i].w.releases[id];
    forall k | i <= k < j && P(h[k])
      ensures P(h[k + 1])
    {
      InvAlways(h, k);
      assert Follows(h, k);
      OrphanStaysByOne(h[k], h[k + 1], id);
    }
    Always(h, i, j, P);
  }

  lemma VisibleStaysByOne(s: Sys, s': Sys, id: nat)
    requires Inv(s) && Next(s, s') && id < |s.w.releases| && !s.w.releases[id].draft
    ensures id < |s'.w.releases| && s'.w.releases[id] == s.w.releases[id]
  {
    if p: nat :| Steps(s, s', p) { VisibleStaysAsItIs(s, s', p, id); }
  }

  /** What consumers have seen of a release never changes: no asset of a visible release is added or replaced. */
  lemma VisibleReleasesNeverChange(h: seq<Sys>, i: nat, j: nat, id: nat)
    requires IsHistory(h) && i <= j < |h| && id < |h[i].w.releases| && !h[i].w.releases[id].draft
    ensures id < |h[j].w.releases| && h[j].w.releases[id] == h[i].w.releases[id]
  {
    var P := (s: Sys) => id < |s.w.releases| && s.w.releases[id] == h[i].w.releases[id];
    forall k | i <= k < j && P(h[k])
      ensures P(h[k + 1])
    {
      InvAlways(h, k);
      assert Follows(h, k);
      VisibleStaysByOne(h[k], h[k + 1], id);
    }
    Always(h, i, j, P);
  }
}
