/**
 * Histories built on purpose: how one run goes on from where it is while all others stand still.
 *
 * A run that has found no release and has begun no tag goes on to its draft, attaching what is left to
 * attach, through its tags, one call of Tag after another, and to its release; and a new run goes on
 * through preflight. Each lemma says that the history it gives extends the one it is given, that only
 * this run has moved, and what has become of the world.
 */
module ProtocolGoesOn {
  import opened Assets
  import opened Protocol
  import opened ProtocolClean
  import opened ProtocolSafety

  function Last(h: seq<Sys>): Sys
    requires h != []
  {
    h[|h| - 1]
  }

  ghost predicate OnlyMoved(s: Sys, s': Sys, p: nat, pc: Pc) {
    p < |s.procs| && s'.procs == s.procs[p := s.procs[p].(pc := pc)]
  }

  /** h' goes on from h, only run p moves, and it moves to pc. */
  ghost predicate GoesOn(h: seq<Sys>, h': seq<Sys>, p: nat, pc: Pc) {
    IsHistory(h) && IsHistory(h') && h <= h' && OnlyMoved(Last(h), Last(h'), p, pc)
  }

  lemma Move(h: seq<Sys>, p: nat, pc': Pc, w': World, owners': seq<Option<Owner>>) returns (h': seq<Sys>)
    requires IsHistory(h) && p < |Last(h).procs|
    requires Moves(Last(h).procs[p].plan, p, Last(h).procs[p].pc, Last(h).w, Last(h).owners, pc', w', owners')
    ensures GoesOn(h, h', p, pc') && Last(h').w == w' && Last(h').owners == owners'
  {
    var s := Last(h);
    var s' := Sys(w', s.procs[p := s.procs[p].(pc := pc')], owners');
    assert Steps(s, s', p);
    OneMoreStep(h, s');
    h' := h + [s'];
  }

  ghost predicate IsAt(h: seq<Sys>, p: nat, pc: Pc) {
    IsHistory(h) && p < |Last(h).procs| && Last(h).procs[p].pc == pc
  }

  // ------------------------------------------------------------ ... to the draft

  lemma {:induction false} ApartAssets(names: seq<string>) returns (assets: seq<Staged>)
    ensures DistinctNames(assets) && assets != [] && assets[|assets| - 1].name == INDEX
    ensures forall n :: n in names ==> exists a :: a in assets && a.name == n
  {
    if names == [] {
      assets := [Staged("", INDEX)];
    } else {
      var rest := ApartAssets(names[1..]);
      if exists a :: a in rest && a.name == names[0] {
        assets := rest;
        assert forall n :: n in names ==> n == names[0] || n in names[1..];
      } else {
        assets := [Staged("", names[0])] + rest;
        forall j | 1 <= j < |assets|
          ensures assets[j].name != names[0] && assets[j] in rest
        {
          assert assets[j] == rest[j - 1];
        }
        assert assets[0] in assets;
        forall n | n in names
          ensures exists a :: a in assets && a.name == n
        {
          if n != names[0] {
            assert n in names[1..];
            var a :| a in rest && a.name == n;
            assert a in assets;
          }
        }
      }
    }
  }

  lemma GoesOnUploading(h: seq<Sys>, p: nat, pending: seq<Member>, assets: seq<Staged>, id: nat, k: nat) returns (h': seq<Sys>)
    requires IsAt(h, p, Uploading(pending, assets, id, k)) && k <= |assets| && Attachable(Last(h).w, assets)
    ensures GoesOn(h, h', p, Tagging(pending, 0, Some(id), AskRemote))
    ensures AllTagsAlike(Last(h).w, Last(h').w) && Last(h).owners <= Last(h').owners
    decreases |assets| - k
  {
    var s := Last(h);
    if k == |assets| {
      h' := Move(h, p, Tagging(pending, 0, Some(id), AskRemote), s.w, s.owners);
    } else {
      NextAssetIsAccepted(h, p, pending, assets, id, k);
      var h1 := Move(h, p, Uploading(pending, assets, id, k + 1), Attached(s.w, id, assets[k]), s.owners);
      h' := GoesOnUploading(h1, p, pending, assets, id, k + 1);
    }
  }

  lemma NextAssetIsAccepted(h: seq<Sys>, p: nat, pending: seq<Member>, assets: seq<Staged>, id: nat, k: nat)
    requires IsAt(h, p, Uploading(pending, assets, id, k)) && k < |assets| && Attachable(Last(h).w, assets)
    ensures id < |Last(h).w.releases| && Accepts(Last(h).w, id, assets[k])
  {
    var s, front := Last(h), assets[..k];
    InvAlways(h, |h| - 1);
    assert RunInv(s.w, s.owners, p, s.procs[p].plan, s.procs[p].pc);
    NamedHasAll(front);
    if !s.w.overwrites {
      forall a | a in front
        ensures a.name != assets[k].name
      {
        var i :| 0 <= i < |front| && front[i] == a;
        assert assets[i] == a;
      }
    }
  }

  /** The run has found no release and has not begun to tag. */
  predicate BeforeFirstTag(pc: Pc) {
    || (pc.Staging? && !pc.found) || pc.Drafting? || pc.Uploading?
    || (pc.Tagging? && pc.draft.Some? && pc.k == 0 && pc.at.AskRemote?)
  }

  function PendingOf(pc: Pc): seq<Member>
    requires BeforeFirstTag(pc)
  {
    pc.pending
  }

  /** Nothing the run still has to attach is refused. */
  predicate CanAttach(w: World, pc: Pc) {
    pc.Drafting? || pc.Uploading? ==> Attachable(w, pc.assets)
  }

  lemma GoesOnDrafting(h: seq<Sys>, p: nat, pending: seq<Member>, assets: seq<Staged>) returns (h': seq<Sys>, id: nat)
    requires IsAt(h, p, Drafting(pending, assets)) && Attachable(Last(h).w, assets)
    ensures GoesOn(h, h', p, Tagging(pending, 0, Some(id), AskRemote))
    ensures AllTagsAlike(Last(h).w, Last(h').w) && Last(h).owners <= Last(h').owners
  {
    var s := Last(h);
    var plan := s.procs[p].plan;
    id := |s.w.releases|;
    var drafted := Drafted(s.w, plan.home, plan.tag);
    var h1 := Move(h, p, Uploading(pending, assets, id, 0), drafted, s.owners + [Some(Owner(p, assets))]);
    h' := GoesOnUploading(h1, p, pending, assets, id, 0);
  }

  lemma GoesOnToTags(h: seq<Sys>, p: nat) returns (h': seq<Sys>, id: nat)
    requires IsHistory(h) && p < |Last(h).procs|
    requires BeforeFirstTag(Last(h).procs[p].pc) && CanAttach(Last(h).w, Last(h).procs[p].pc)
    ensures GoesOn(h, h', p, Tagging(PendingOf(Last(h).procs[p].pc), 0, Some(id), AskRemote))
    ensures AllTagsAlike(Last(h).w, Last(h').w) && Last(h).owners <= Last(h').owners
  {
    var s := Last(h);
    match s.procs[p].pc
    case Staging(pending, _) =>
      var assets := ApartAssets(s.procs[p].plan.assetNames);
      var h1 := Move(h, p, Drafting(pending, assets), s.w, s.owners);
      h', id := GoesOnDrafting(h1, p, pending, assets);
    case Drafting(pending, assets) =>
      h', id := GoesOnDrafting(h, p, pending, assets);
    case Uploading(pending, assets, own, k) =>
      InvAlways(h, |h| - 1);
      assert RunInv(s.w, s.owners, p, s.procs[p].plan, s.procs[p].pc);
      id := own;
      h' := GoesOnUploading(h, p, pending, assets, own, k);
    case Tagging(_, _, draft, _) =>
      h', id := h, draft.value;
      GrowsNot(s.w);
  }

  // ------------------------------------------------------------ ... through the tags

  lemma GoesOnToPush(h: seq<Sys>, p: nat, pc: Pc, m: Member) returns (h': seq<Sys>)
    requires pc.Tagging? && pc.at.Push? && IsAt(h, p, pc) && pc.k < |pc.pending| && pc.pending[pc.k] == m
    requires
      var w, tag := Last(h).w, Last(h).procs[p].plan.tag;
      RemoteOf(w, tag, m).None? && m.dir in w.origin && (m.dir, tag) in w.local
    ensures GoesOn(h, h', p, AfterTag(pc))
    ensures Last(h').owners == Last(h).owners && Last(h').w == Pushed(Last(h).w, Last(h).procs[p].plan.tag, m)
  {
    h' := Move(h, p, AfterTag(pc), Pushed(Last(h).w, Last(h).procs[p].plan.tag, m), Last(h).owners);
  }

  lemma GoesOnToLocal(h: seq<Sys>, p: nat, pc: Pc, m: Member) returns (h': seq<Sys>)
    requires pc.Tagging? && pc.at.AskLocal? && IsAt(h, p, pc) && pc.k < |pc.pending| && pc.pending[pc.k] == m
    requires LocalOf(Last(h).w, Last(h).procs[p].plan.tag, m) in {None, Some(m.sha)}
    ensures GoesOn(h, h', p, if m.dir in Last(h).w.origin then pc.(at := Push) else AfterTag(pc))
    ensures Last(h').owners == Last(h).owners && Last(h').w == TaggedHere(Last(h).w, Last(h).procs[p].plan.tag, m)
  {
    var w, owners, tag := Last(h).w, Last(h).owners, Last(h).procs[p].plan.tag;
    var after := if m.dir in w.origin then pc.(at := Push) else AfterTag(pc);
    if LocalOf(w, tag, m).Some? {
      h' := Move(h, p, after, w, owners);
    } else {
      var h1 := Move(h, p, pc.(at := Create), w, owners);
      h' := Move(h1, p, after, LocallyTagged(w, tag, m), owners);
    }
  }

  lemma GoesOnToTag(h: seq<Sys>, p: nat, pc: Pc, m: Member) returns (h': seq<Sys>)
    requires pc.Tagging? && pc.at.AskRemote? && IsAt(h, p, pc) && pc.k < |pc.pending| && pc.pending[pc.k] == m
    requires CleanTag(Last(h).w, Last(h).procs[p].plan.tag, m).1
    ensures GoesOn(h, h', p, AfterTag(pc))
    ensures Last(h').owners == Last(h).owners && Last(h').w == CleanTag(Last(h).w, Last(h).procs[p].plan.tag, m).0
  {
    var w, owners, tag := Last(h).w, Last(h).owners, Last(h).procs[p].plan.tag;
    if RemoteOf(w, tag, m).Some? {
      h' := Move(h, p, AfterTag(pc), w, owners);
    } else {
      h' := Move(h, p, pc.(at := AskLocal), w, owners);
      h' := GoesOnToLocal(h', p, pc.(at := AskLocal), m);
      if m.dir in w.origin { h' := GoesOnToPush(h', p, pc.(at := Push), m); }
    }
  }

  lemma {:induction false} GoesOnThroughTags(h: seq<Sys>, p: nat, pending: seq<Member>, draft: Option<nat>, k: nat)
    returns (h': seq<Sys>)
    requires IsAt(h, p, Tagging(pending, 0, draft, AskRemote)) && k <= |pending|
    requires TagAll(Last(h).w, Last(h).procs[p].plan.tag, pending[..k]).1
    ensures GoesOn(h, h', p, Tagging(pending, k, draft, AskRemote))
    ensures Last(h').owners == Last(h).owners
    ensures Last(h').w == TagAll(Last(h).w, Last(h).procs[p].plan.tag, pending[..k]).0
    decreases k
  {
    if k == 0 {
      h' := h;
    } else {
      assert pending[..k][..k - 1] == pending[..k - 1];
      h' := GoesOnThroughTags(h, p, pending, draft, k - 1);
      h' := GoesOnToTag(h', p, Tagging(pending, k - 1, draft, AskRemote), pending[k - 1]);
    }
  }

  // ------------------------------------------------------------ what preflight passed over stays settled

  /** The run's list leaves out only members that are on their remote. */
  ghost predicate PendingOk(w: World, plan: Plan, pc: Pc) {
    match pc
    case Checking(i, pending) => i <= |plan.members| && LeavesOut(w, plan.tag, plan.members[..i], pending)
    case Publishing(_) => true
    case Halted(_) => true
    case _ => LeavesOut(w, plan.tag, plan.members, pc.pending)
  }

  lemma {:induction false} LeftOutStays(w: World, w': World, tag: string, ms: seq<Member>, pending: seq<Member>)
    requires Grows(w, w') && LeavesOut(w, tag, ms, pending)
    ensures LeavesOut(w', tag, ms, pending)
  {
    if ms != [] {
      var front, m := ms[..|ms| - 1], ms[|ms| - 1];
      if pending != [] && pending[|pending| - 1] == m && LeavesOut(w, tag, front, pending[..|pending| - 1]) {
        LeftOutStays(w, w', tag, front, pending[..|pending| - 1]);
      } else {
        LeftOutStays(w, w', tag, front, pending);
        assert Carried(w, tag, m);
        CarriedStays(w, w', tag, m);
      }
    }
  }

  lemma PendingOkStays(w: World, w': World, plan: Plan, pc: Pc)
    requires Grows(w, w') && PendingOk(w, plan, pc)
    ensures PendingOk(w', plan, pc)
  {
    match pc
    case Checking(i, pending) => LeftOutStays(w, w', plan.tag, plan.members[..i], pending);
    case Publishing(_) =>
    case Halted(_) =>
    case _ => LeftOutStays(w, w', plan.tag, plan.members, pc.pending);
  }

  lemma CheckedOne(w: World, plan: Plan, i: nat, pending: seq<Member>, pc': Pc)
    requires i < |plan.members| && LeavesOut(w, plan.tag, plan.members[..i], pending)
    requires Reads(plan, Checking(i, pending), w, pc')
    ensures PendingOk(w, plan, pc')
  {
    var ms, m := plan.members[..i + 1], plan.members[i];
    assert ms[..i] == plan.members[..i] && ms[i] == m;
    assert (pending + [m])[..|pending|] == pending;
  }

  lemma StepKeepsPending(s: Sys, s': Sys, p: nat)
    requires Steps(s, s', p) && PendingOk(s.w, s.procs[p].plan, s.procs[p].pc)
    ensures PendingOk(s.w, s'.procs[p].plan, s'.procs[p].pc)
  {
    var plan, pc, pc' := s.procs[p].plan, s.procs[p].pc, s'.procs[p].pc;
    if pc.Checking? && !pc'.Halted? {
      if pc.i < |plan.members| {
        CheckedOne(s.w, plan, pc.i, pc.pending, pc');
      } else {
        assert plan.members[..pc.i] == plan.members;
      }
    }
  }

  lemma NextKeepsPending(s: Sys, s': Sys, p: nat)
    requires Next(s, s') && p < |s'.procs|
    requires p < |s.procs| ==> PendingOk(s.w, s.procs[p].plan, s.procs[p].pc)
    ensures PendingOk(s'.w, s'.procs[p].plan, s'.procs[p].pc)
  {
    StepGrows(s, s');
    if q: nat :| Steps(s, s', q) {
      if q == p { StepKeepsPending(s, s', p); } else { assert s'.procs[p] == s.procs[p]; }
      PendingOkStays(s.w, s'.w, s'.procs[p].plan, s'.procs[p].pc);
    } else {
      var plan :| Spawns(s, s', plan);
      if p < |s.procs| { assert s'.procs[p] == s.procs[p]; }
    }
  }

  lemma {:induction false} PendingAlways(h: seq<Sys>, i: nat, p: nat)
    requires IsHistory(h) && i < |h| && p < |h[i].procs|
    ensures PendingOk(h[i].w, h[i].procs[p].plan, h[i].procs[p].pc)
  {
    if i > 0 {
      assert Follows(h, i - 1);
      if p < |h[i - 1].procs| { PendingAlways(h, i - 1, p); }
      NextKeepsPending(h[i - 1], h[i], p);
    }
  }

  // ------------------------------------------------------------ ... to the release

  /** Without a conflict, what the run has on its list can be tagged, and comes to the same as tagging every member. */
  lemma ListCanBeTagged(h: seq<Sys>, p: nat)
    requires IsHistory(h) && p < |Last(h).procs| && BeforeFirstTag(Last(h).procs[p].pc)
    requires NoConflict(Last(h).w, Last(h).procs[p].plan)
    ensures
      var plan := Last(h).procs[p].plan;
      && TagAll(Last(h).w, plan.tag, PendingOf(Last(h).procs[p].pc)) == TagAll(Last(h).w, plan.tag, plan.members)
      && TagAll(Last(h).w, plan.tag, plan.members).1
  {
    var w, plan := Last(h).w, Last(h).procs[p].plan;
    PendingAlways(h, |h| - 1, p);
    GrowsNot(w);
    SettledAreSkipped(w, w, plan.tag, plan.members, PendingOf(Last(h).procs[p].pc));
    TagAllWhenClear(w, plan.tag, plan.members, |plan.members|);
    assert plan.members[..|plan.members|] == plan.members;
  }

  lemma GoesOnToShow(h: seq<Sys>, p: nat, pending: seq<Member>, id: nat) returns (h': seq<Sys>)
    requires IsAt(h, p, Tagging(pending, |pending|, Some(id), AskRemote))
    ensures GoesOn(h, h', p, Halted(Published))
    ensures AllTagsAlike(Last(h).w, Last(h').w) && Last(h').owners == Last(h).owners && Owns(Last(h').owners, p, id)
  {
    var s := Last(h);
    InvAlways(h, |h| - 1);
    assert RunInv(s.w, s.owners, p, s.procs[p].plan, s.procs[p].pc);
    h' := Move(h, p, Publishing(id), s.w, s.owners);
    h' := Move(h', p, Halted(Published), Shown(s.w, id), s.owners);
  }

  /** A run that has found no release goes on to make one visible, whatever became visible meanwhile. */
  lemma GoesOnToRelease(h: seq<Sys>, p: nat) returns (h': seq<Sys>, id: nat)
    requires IsHistory(h) && p < |Last(h).procs| && BeforeFirstTag(Last(h).procs[p].pc)
    requires CanAttach(Last(h).w, Last(h).procs[p].pc) && NoConflict(Last(h).w, Last(h).procs[p].plan)
    ensures GoesOn(h, h', p, Halted(Published))
    ensures Owns(Last(h').owners, p, id) && Last(h).owners <= Last(h').owners
    ensures
      var plan := Last(h).procs[p].plan;
      AllTagsAlike(TagAll(Last(h).w, plan.tag, plan.members).0, Last(h').w)
  {
    var plan, pending := Last(h).procs[p].plan, PendingOf(Last(h).procs[p].pc);
    ListCanBeTagged(h, p);
    var drafted;
    drafted, id := GoesOnToTags(h, p);
    TagAllLooksAtTags(Last(h).w, Last(drafted).w, plan.tag, pending);
    assert pending[..|pending|] == pending;
    var tagged := GoesOnThroughTags(drafted, p, pending, Some(id), |pending|);
    h' := GoesOnToShow(tagged, p, pending, id);
  }

  // ------------------------------------------------------------ ... through preflight

  lemma {:induction false} GoesOnChecking(h: seq<Sys>, p: nat, i: nat, pending: seq<Member>)
    returns (h': seq<Sys>, list: seq<Member>)
    requires IsAt(h, p, Checking(i, pending)) && i <= |Last(h).procs[p].plan.members|
    requires NoConflict(Last(h).w, Last(h).procs[p].plan)
    ensures GoesOn(h, h', p, Looking(list)) && Last(h').w == Last(h).w && Last(h').owners == Last(h).owners
    decreases |Last(h).procs[p].plan.members| - i
  {
    var s, plan := Last(h), Last(h).procs[p].plan;
    if i == |plan.members| {
      list := pending;
      h' := Move(h, p, Looking(pending), s.w, s.owners);
    } else {
      assert Clear(s.w, plan.tag, plan.members, i);
      var more := if RemoteOf(s.w, plan.tag, plan.members[i]).None? then pending + [plan.members[i]] else pending;
      h' := Move(h, p, Checking(i + 1, more), s.w, s.owners);
      h', list := GoesOnChecking(h', p, i + 1, more);
    }
  }

  /** One more run of the plan looks, and finds nothing in its way and no release. */
  lemma OneMoreLooks(h: seq<Sys>, plan: Plan) returns (h': seq<Sys>, list: seq<Member>)
    requires IsHistory(h) && NoConflict(Last(h).w, plan) && !VisibleUnder(Last(h).w, plan.home, plan.tag)
    ensures IsHistory(h') && h <= h' && Last(h').w == Last(h).w
    ensures Last(h').procs == Last(h).procs + [Proc(plan, Staging(list, false))]
  {
    var s, p := Last(h), |Last(h).procs|;
    var s' := s.(procs := s.procs + [Proc(plan, Checking(0, []))]);
    assert Spawns(s, s', plan);
    OneMoreStep(h, s');
    h', list := GoesOnChecking(h + [s'], p, 0, []);
    h' := Move(h', p, Staging(list, false), s.w, s.owners);
  }

  lemma OverwritesStays(h: seq<Sys>, h': seq<Sys>)
    requires IsHistory(h) && IsHistory(h') && h <= h'
    ensures Last(h').w.overwrites == Last(h).w.overwrites
  {
    HistoryGrows(h', |h| - 1, |h'| - 1);
  }
}
