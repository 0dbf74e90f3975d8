/**
 * publish and Tag as the engine carries them out, call by call. Every call that reaches the world
 * is one step of the protocol, so what holds of all histories holds of every execution of this code.
 */
module Publish {
  import opened Assets
  import opened Protocol
  import opened ProtocolClean
  import opened ProtocolRuns
  import opened ProtocolSafety
  import opened Text

  lemma CompleteIsWhole(plan: Plan, uploads: seq<Upload>, patterns: seq<Pattern>, disk: Disk, assets: seq<Staged>)
    requires plan.assetNames == AssetNames(uploads) && Complete(uploads, patterns, disk, assets)
    ensures Whole(plan, assets)
  {
    forall n | n in plan.assetNames
      ensures exists a :: a in assets && a.name == n
    {
      var i :| 0 <= i < |uploads| && uploads[i].asset == n;
      assert uploads[i] in uploads && IsStaged(uploads[i], disk, assets);
    }
  }

  /** Any release the run made is for these assets, and once the run has succeeded it is visible and made of them. */
  ghost predicate Delivers(w: World, owners: seq<Option<Owner>>, me: nat, home: string, tag: string, assets: seq<Staged>,
                           published: bool) {
    forall id: nat :: Owns(owners, me, id) ==>
      && owners[id].value.assets == assets
      && (published ==> id < |w.releases| && IsVisible(w.releases[id], home, tag) && IsMadeOf(w, w.releases[id], assets))
  }

  /** The releases of a run, when it ends, by what it had staged and whether it succeeded. */
  lemma OwnReleases(h: seq<Sys>, i: nat, p: nat, pending: seq<Member>, assets: seq<Staged>)
    requires IsHistory(h) && i < |h| && p < |h[i].procs| && p < |h[|h| - 1].procs|
    requires h[i].procs[p].pc == Drafting(pending, assets) || h[i].procs[p].pc == Tagging(pending, 0, None, AskRemote)
    ensures
      var s := h[|h| - 1];
      Delivers(s.w, s.owners, p, s.procs[p].plan.home, s.procs[p].plan.tag, assets, s.procs[p].pc == Halted(Published))
  {
    var j := |h| - 1;
    forall id: nat | Owns(h[j].owners, p, id)
      ensures h[j].owners[id].value.assets == assets
      ensures h[j].procs[p].pc == Halted(Published) ==>
        && id < |h[j].w.releases| && IsVisible(h[j].w.releases[id], h[j].procs[p].plan.home, h[j].procs[p].plan.tag)
        && IsMadeOf(h[j].w, h[j].w.releases[id], assets)
    {
      ReleasesAreForWhatWasStaged(h, i, j, p, pending, assets, id);
      if h[j].procs[p].pc == Halted(Published) { SuccessShowsItsRelease(h, j, p, id); }
    }
  }

  /** With names apart, every planned and every matched file is to be had from the release under its name. */
  lemma DeliversEveryFile(w: World, owners: seq<Option<Owner>>, me: nat, home: string, tag: string, uploads: seq<Upload>,
                          patterns: seq<Pattern>, disk: Disk, assets: seq<Staged>, index: string, id: nat)
    requires StagedFrom(uploads, patterns, disk, assets, index) && Delivers(w, owners, me, home, tag, assets, true)
    requires Owns(owners, me, id)
    ensures id < |w.releases| && (NamesApart(uploads, patterns, disk) <==> DistinctNames(assets))
    ensures NamesApart(uploads, patterns, disk) ==> Holds(w.releases[id], assets)
    ensures NamesApart(uploads, patterns, disk) ==> forall u :: u in uploads ==>
      u.asset in w.releases[id].assets && disk.resolve(u.path) == Some(w.releases[id].assets[u.asset])
    ensures NamesApart(uploads, patterns, disk) ==> forall rel :: Added(uploads, patterns, disk, rel) ==>
      Base(rel) in w.releases[id].assets && disk.resolve(rel) == Some(w.releases[id].assets[Base(rel)])
    ensures !w.overwrites ==> NamesApart(uploads, patterns, disk)
  {
    StagedNamesAreDistinctExactly(uploads, patterns, disk, assets, index);
    assert IsMadeOf(w, w.releases[id], assets);
    if NamesApart(uploads, patterns, disk) {
      EveryFileIsFound(uploads, patterns, disk, assets, index);
      DistinctNamesDoNotClash(assets);
      MadeOfHolds(w, w.releases[id], assets);
    }
  }

  lemma ShownGrows(w: World, id: nat)
    requires id < |w.releases|
    ensures Grows(w, Shown(w, id))
  {
  }

  /** What publish answers: how it ended, the members tagged by this run, and the staged index. */
  datatype Output = Output(result: Result, tagged: seq<Member>, index: string)

  class Publisher {
    /** No other run acts while this one does. */
    const alone: bool
    /** No call fails and the run is not cut short. */
    const healthy: bool

    var world: World
    /** How many calls got no answer, or were reported as failed. */
    ghost var failures: nat
    ghost var procs: seq<Proc>
    ghost var owners: seq<Option<Owner>>
    ghost var history: seq<Sys>

    ghost function State(): Sys
      reads `world, `procs, `owners
    {
      Sys(world, procs, owners)
    }

    /** What has happened so far is a history of the protocol and ends in the present state. */
    ghost predicate Valid()
      reads `world, `procs, `owners, `history
    {
      IsHistory(history) && history[|history| - 1] == State()
    }

    ghost predicate At(me: nat, plan: Plan, pc: Pc)
      reads `procs
    {
      me < |procs| && procs[me] == Proc(plan, pc)
    }

    /** The last thing that happened is that the run left this point. */
    ghost predicate Left(me: nat, pc: Pc)
      reads `history
    {
      |history| >= 2 && me < |history[|history| - 2].procs| && history[|history| - 2].procs[me].pc == pc
    }

    /** The run broke on its k-th member, somewhere inside Tag. */
    ghost predicate LeftTag(me: nat, pc: Pc)
      reads `history
    {
      exists at :: pc.Tagging? && Left(me, pc.(at := at))
    }

    /** tagged is what was tagged when the run broke: nothing yet, the members before the one it broke on, or all. */
    ghost predicate Reports(me: nat, pending: seq<Member>, assets: seq<Staged>, tagged: seq<Member>)
      reads `history
    {
      || (tagged == [] && (Left(me, Drafting(pending, assets)) || exists id, k :: Left(me, Uploading(pending, assets, id, k))))
      || (|tagged| < |pending| && exists draft :: LeftTag(me, Tagging(pending, |tagged|, draft, AskRemote)))
      || (tagged == pending && exists id :: Left(me, Publishing(id)))
    }

    constructor (w: World, alone: bool, healthy: bool)
      ensures Valid() && world == w && procs == [] && this.alone == alone && this.healthy == healthy
    {
      this.alone, this.healthy, failures := alone, healthy, 0;
      world := w;
      procs := [];
      owners := seq(|w.releases|, _ => None);
      history := [Sys(w, [], seq(|w.releases|, _ => None))];
    }

    ghost method Spawn(plan: Plan) returns (me: nat)
      requires Valid()
      modifies this`procs, this`history
      ensures Valid() && old(history) <= history
      ensures me == |old(procs)| && |procs| == me + 1 && At(me, plan, Checking(0, []))
    {
      me := |procs|;
      procs := procs + [Proc(plan, Checking(0, []))];
      assert Spawns(history[|history| - 1], State(), plan);
      OneMoreStep(history, State());
      history := history + [State()];
    }

    /** The run's own step, taken since the last recorded state. */
    ghost method Record(me: nat, plan: Plan, pc: Pc, pc': Pc)
      requires IsHistory(history)
      requires
        var s := history[|history| - 1];
        && s.procs == procs && At(me, plan, pc) && Moves(plan, me, pc, s.w, s.owners, pc', world, owners)
      modifies this`procs, this`history
      ensures Valid() && history == old(history) + [State()]
      ensures procs == old(procs)[me := Proc(plan, pc')] && Left(me, pc)
    {
      procs := procs[me := Proc(plan, pc')];
      assert Steps(history[|history| - 1], State(), me);
      OneMoreStep(history, State());
      history := history + [State()];
    }

    /**
     * Other runs act here, as far as the contract lets them, unless this run is alone. The body does
     * the least they can do; the code below relies on nothing but the contract.
     */
    method Interfere(ghost me: nat)
      requires Valid() && me < |procs|
      modifies this
      ensures Valid() && old(history) <= history
      ensures |old(procs)| <= |procs| && procs[me] == old(procs[me])
      ensures Grows(old(world), world) && failures == old(failures)
      ensures alone ==> world == old(world)
    {
      GrowsNot(world);
    }

    /** Whether a call gets an answer. */
    method Answers() returns (ok: bool)
      modifies this`failures
      ensures ok <==> failures == old(failures)
      ensures healthy ==> ok
    {
      ok := *;
      ok := ok || healthy;
      if !ok { failures := failures + 1; }
    }

    /** Whether a write lands, and whether it is then reported as done. */
    method Lands() returns (landed: bool, reported: bool)
      modifies this`failures
      ensures reported <==> failures == old(failures)
      ensures reported ==> landed
      ensures healthy ==> landed && reported
    {
      landed, reported := *, *;
      landed := landed || healthy;
      reported := landed && (reported || healthy);
      if !reported { failures := failures + 1; }
    }

    method CreateDraftRelease(plan: Plan, ghost me: nat, ghost pc: Pc) returns (id: Option<nat>)
      requires Valid() && At(me, plan, pc) && pc.Drafting?
      modifies this
      ensures Valid() && old(history) <= history
      ensures |procs| == |old(procs)|
      ensures id.Some? ==> id.value == |old(world.releases)| && At(me, plan, Uploading(pc.pending, pc.assets, id.value, 0))
      ensures id.Some? ==> world == Drafted(old(world), plan.home, plan.tag)
      ensures id.None? ==> At(me, plan, Halted(Broken)) && !healthy
      ensures id.Some? ==> failures == old(failures)
      ensures id.None? ==> Left(me, pc)
    {
      var landed, reported := Lands();
      var next := |world.releases|;
      if landed {
        world := Drafted(world, plan.home, plan.tag);
        owners := owners + [Some(Owner(me, pc.assets))];
      }
      if reported {
        id := Some(next);
        Record(me, plan, pc, Uploading(pc.pending, pc.assets, next, 0));
      } else {
        id := None;
        Record(me, plan, pc, Halted(Broken));
      }
    }

    /** The store refuses a second asset under a name, or lets it replace the first. */
    method UploadAsset(plan: Plan, asset: Staged, id: nat, ghost me: nat, ghost pc: Pc) returns (ok: bool)
      requires Valid() && At(me, plan, pc) && pc.Uploading? && pc.id == id && pc.k < |pc.assets| && pc.assets[pc.k] == asset
      requires id < |world.releases|
      modifies this
      ensures Valid() && old(history) <= history
      ensures |procs| == |old(procs)|
      ensures id < |world.releases|
      ensures ok ==> At(me, plan, Uploading(pc.pending, pc.assets, id, pc.k + 1))
      ensures ok ==> Accepts(old(world), id, asset) && world == Attached(old(world), id, asset)
      ensures !ok ==> At(me, plan, Halted(Broken))
      ensures healthy && !ok ==> !Accepts(old(world), id, asset) && world == old(world)
      ensures ok ==> failures == old(failures)
      ensures !ok ==> Left(me, pc)
    {
      var landed, reported := Lands();
      if !Accepts(world, id, asset) {
        ok := false;
        Record(me, plan, pc, Halted(Broken));
        return;
      }
      if landed {
        world := Attached(world, id, asset);
      }
      ok := reported;
      Record(me, plan, pc, if ok then Uploading(pc.pending, pc.assets, id, pc.k + 1) else Halted(Broken));
    }

    method PublishRelease(plan: Plan, id: nat, ghost me: nat, ghost pc: Pc) returns (ok: bool)
      requires Valid() && At(me, plan, pc) && pc == Publishing(id) && id < |world.releases|
      modifies this
      ensures Valid() && old(history) <= history
      ensures |procs| == |old(procs)| && Grows(old(world), world)
      ensures ok ==> At(me, plan, Halted(Published)) && world == Shown(old(world), id)
      ensures !ok ==> At(me, plan, Halted(Broken)) && !healthy
      ensures ok ==> failures == old(failures)
      ensures !ok ==> Left(me, pc)
    {
      var landed, reported := Lands();
      GrowsNot(world);
      if landed {
        ShownGrows(world, id);
        world := Shown(world, id);
      }
      ok := reported;
      Record(me, plan, pc, if ok then Halted(Published) else Halted(Broken));
    }

    /** git tag, without force: it refuses a name that exists. */
    method CreateTag(plan: Plan, m: Member, ghost me: nat, ghost pc: Pc) returns (ok: bool)
      requires Valid() && At(me, plan, pc) && pc.Tagging? && pc.k < |pc.pending| && pc.pending[pc.k] == m && pc.at.Create?
      modifies this
      ensures Valid() && old(history) <= history
      ensures |procs| == |old(procs)| && world.releases == old(world.releases) && Grows(old(world), world)
      ensures ok ==> LocalOf(old(world), plan.tag, m).None? && world == LocallyTagged(old(world), plan.tag, m)
      ensures ok ==> At(me, plan, if m.dir in world.origin then pc.(at := Push) else AfterTag(pc))
      ensures !ok ==> At(me, plan, Halted(Broken))
      ensures healthy && LocalOf(old(world), plan.tag, m).None? ==> ok
      ensures ok ==> failures == old(failures)
      ensures !ok ==> Left(me, pc)
    {
      var landed, reported := Lands();
      if (m.dir, plan.tag) in world.local {
        ok := false;
        Record(me, plan, pc, Halted(Broken));
        return;
      }
      if landed {
        world := LocallyTagged(world, plan.tag, m);
      }
      ok := reported;
      Record(me, plan, pc, if !ok then Halted(Broken) else if m.dir in world.origin then pc.(at := Push) else AfterTag(pc));
    }

    /** git push origin <tag>, without force: the remote refuses another object under a name it has. */
    method PushTag(plan: Plan, m: Member, ghost me: nat, ghost pc: Pc) returns (ok: bool)
      requires Valid() && At(me, plan, pc) && pc.Tagging? && pc.k < |pc.pending| && pc.pending[pc.k] == m && pc.at.Push?
      requires m.dir in world.origin && LocalOf(world, plan.tag, m) == Some(m.sha)
      modifies this
      ensures Valid() && old(history) <= history
      ensures |procs| == |old(procs)| && world.releases == old(world.releases) && Grows(old(world), world)
      ensures ok ==> At(me, plan, AfterTag(pc)) && Carried(world, plan.tag, m)
      ensures !ok ==> At(me, plan, Halted(Broken))
      ensures healthy && RemoteOf(old(world), plan.tag, m).None? ==> ok && world == Pushed(old(world), plan.tag, m)
      ensures ok ==> failures == old(failures)
      ensures !ok ==> Left(me, pc)
    {
      var landed, reported := Lands();
      if (world.origin[m.dir], plan.tag) in world.remote {
        ok := reported && world.remote[(world.origin[m.dir], plan.tag)] == m.sha;
        Record(me, plan, pc, if ok then AfterTag(pc) else Halted(Broken));
        return;
      }
      if landed {
        world := Pushed(world, plan.tag, m);
      }
      ok := reported;
      Record(me, plan, pc, if ok then AfterTag(pc) else Halted(Broken));
    }

    /** The tag the checkout lacked when it was asked: other runs may have come first, and then creating it fails. */
    method CreateMissing(plan: Plan, m: Member, ghost me: nat, ghost pc: Pc) returns (ok: bool)
      requires Valid() && At(me, plan, pc) && pc.Tagging? && pc.k < |pc.pending| && pc.pending[pc.k] == m && pc.at.Create?
      modifies this
      ensures Valid() && old(history) <= history
      ensures |old(procs)| <= |procs| && Grows(old(world), world)
      ensures ok ==> At(me, plan, if m.dir in world.origin then pc.(at := Push) else AfterTag(pc))
      ensures ok ==> LocalOf(world, plan.tag, m) == Some(m.sha)
      ensures !ok ==> At(me, plan, Halted(Broken))
      ensures alone ==> world.releases == old(world.releases)
      ensures alone && healthy && LocalOf(old(world), plan.tag, m).None? ==> ok && world == LocallyTagged(old(world), plan.tag, m)
      ensures ok ==> failures == old(failures)
      ensures !ok ==> Left(me, pc)
    {
      Interfere(me);
      label creating:
      ok := CreateTag(plan, m, me, pc);
      GrowsOn(old(world), old@creating(world), world);
    }

    /** The half of Tag that looks at the checkout: a tag at another commit is refused, a missing one created. */
    method TagLocally(plan: Plan, m: Member, ghost me: nat, ghost pc: Pc) returns (ok: bool)
      requires Valid() && At(me, plan, pc) && pc.Tagging? && pc.k < |pc.pending| && pc.pending[pc.k] == m && pc.at.AskLocal?
      modifies this
      ensures Valid() && old(history) <= history
      ensures |old(procs)| <= |procs| && Grows(old(world), world)
      ensures ok ==> At(me, plan, if m.dir in world.origin then pc.(at := Push) else AfterTag(pc))
      ensures ok ==> LocalOf(world, plan.tag, m) == Some(m.sha)
      ensures !ok ==> At(me, plan, Halted(Broken))
      ensures alone ==> world.releases == old(world.releases)
      ensures alone && healthy ==> ok == (LocalOf(old(world), plan.tag, m) in {None, Some(m.sha)})
      ensures alone && healthy ==>
        world == if LocalOf(old(world), plan.tag, m).None? then LocallyTagged(old(world), plan.tag, m) else old(world)
      ensures ok ==> failures == old(failures)
      ensures !ok ==> LeftTag(me, pc)
    {
      Interfere(me);
      var answered := Answers();
      var localAt := LocalOf(world, plan.tag, m);
      if !answered || (localAt.Some? && localAt.value != m.sha) {
        Record(me, plan, pc, Halted(Broken));
        return false;
      }
      if localAt.Some? {
        Record(me, plan, pc, if m.dir in world.origin then pc.(at := Push) else AfterTag(pc));
        return true;
      }
      Record(me, plan, pc, pc.(at := Create));
      label asked:
      ok := CreateMissing(plan, m, me, pc.(at := Create));
      GrowsOn(old(world), old@asked(world), world);
    }

    /** The last of Tag: other runs may have come first, and then the push decides. */
    method PushMissing(plan: Plan, m: Member, ghost me: nat, ghost pc: Pc) returns (ok: bool)
      requires Valid() && At(me, plan, pc) && pc.Tagging? && pc.k < |pc.pending| && pc.pending[pc.k] == m && pc.at.Push?
      requires m.dir in world.origin && LocalOf(world, plan.tag, m) == Some(m.sha)
      modifies this
      ensures Valid() && old(history) <= history
      ensures |old(procs)| <= |procs| && Grows(old(world), world)
      ensures ok ==> At(me, plan, AfterTag(pc)) && Carried(world, plan.tag, m)
      ensures !ok ==> At(me, plan, Halted(Broken))
      ensures alone ==> world.releases == old(world.releases)
      ensures alone && healthy && RemoteOf(old(world), plan.tag, m).None? ==> ok && world == Pushed(old(world), plan.tag, m)
      ensures ok ==> failures == old(failures)
      ensures !ok ==> LeftTag(me, pc)
    {
      Interfere(me);
      label pushing:
      ok := PushTag(plan, m, me, pc);
      GrowsOn(old(world), old@pushing(world), world);
    }

    /** The first of Tag: a remote that has the tag settles the matter. */
    method AskOrigin(plan: Plan, m: Member, ghost me: nat, ghost pc: Pc) returns (settled: bool, ok: bool)
      requires Valid() && At(me, plan, pc) && pc.Tagging? && pc.k < |pc.pending| && pc.pending[pc.k] == m && pc.at.AskRemote?
      modifies this
      ensures Valid() && old(history) <= history
      ensures |old(procs)| <= |procs| && Grows(old(world), world)
      ensures settled && ok ==> At(me, plan, AfterTag(pc)) && Carried(world, plan.tag, m)
      ensures settled && !ok ==> At(me, plan, Halted(Broken))
      ensures !settled ==> At(me, plan, pc.(at := AskLocal)) && RemoteOf(world, plan.tag, m).None?
      ensures alone ==> world == old(world)
      ensures healthy && settled ==> RemoteOf(world, plan.tag, m).Some? && ok == (RemoteOf(world, plan.tag, m) == Some(m.sha))
      ensures ok || !settled ==> failures == old(failures)
      ensures settled && !ok ==> LeftTag(me, pc)
    {
      Interfere(me);
      var answered := Answers();
      var remoteAt := RemoteOf(world, plan.tag, m);
      if !answered {
        Record(me, plan, pc, Halted(Broken));
        return true, false;
      }
      if remoteAt.Some? {
        ok := remoteAt.value == m.sha;
        Record(me, plan, pc, if ok then AfterTag(pc) else Halted(Broken));
        return true, ok;
      }
      Record(me, plan, pc, pc.(at := AskLocal));
      return false, false;
    }

    /**
     * Tag: decide on the remote first, then on the checkout, create what is missing, push what has a
     * remote. It never moves a tag; when it succeeds the member carries the tag at its commit.
     */
    method Tag(plan: Plan, m: Member, ghost me: nat, ghost pc: Pc) returns (ok: bool)
      requires Valid() && At(me, plan, pc) && pc.Tagging? && pc.k < |pc.pending| && pc.pending[pc.k] == m && pc.at.AskRemote?
      modifies this
      ensures Valid() && old(history) <= history
      ensures |old(procs)| <= |procs| && Grows(old(world), world)
      ensures ok ==> At(me, plan, AfterTag(pc)) && Carried(world, plan.tag, m)
      ensures !ok ==> At(me, plan, Halted(Broken))
      ensures alone ==> world.releases == old(world.releases)
      ensures alone && healthy ==> (world, ok) == CleanTag(old(world), plan.tag, m)
      ensures ok ==> failures == old(failures)
      ensures !ok ==> LeftTag(me, pc)
    {
      var settled;
      settled, ok := AskOrigin(plan, m, me, pc);
      if settled {
        return;
      }
      label asked:
      ok := TagLocally(plan, m, me, pc.(at := AskLocal));
      GrowsOn(old(world), old@asked(world), world);
      if !ok || m.dir !in world.origin {
        return;
      }
      label tagged:
      ok := PushMissing(plan, m, me, pc.(at := Push));
      GrowsOn(old(world), old@tagged(world), world);
    }

    /**
     * Preflight over the members: those whose remote has the tag at their commit are done, a remote
     * with the tag at another commit ends the run, and so does one that cannot be read.
     */
    method Preflight(plan: Plan, ghost me: nat) returns (ok: bool, pending: seq<Member>)
      requires Valid() && At(me, plan, Checking(0, []))
      modifies this
      ensures Valid() && old(history) <= history && |old(procs)| <= |procs|
      ensures At(me, plan, if ok then Looking(pending) else Halted(Refused))
      ensures alone ==> world == old(world)
      ensures alone && ok ==> Unsettled(world, plan.tag, plan.members) == Some(pending)
      ensures alone && healthy && !ok ==> Unsettled(world, plan.tag, plan.members).None?
      ensures ok ==> failures == old(failures)
    {
      pending := [];
      var i := 0;
      while i < |plan.members|
        invariant i <= |plan.members|
        invariant Valid() && old(history) <= history && |old(procs)| <= |procs|
        invariant At(me, plan, Checking(i, pending)) && failures == old(failures)
        invariant alone ==> world == old(world)
        invariant alone ==> Unsettled(world, plan.tag, plan.members[..i]) == Some(pending)
      {
        Interfere(me);
        var m := plan.members[i];
        assert plan.members[..i + 1][..i] == plan.members[..i];
        var answered := Answers();
        var at := RemoteOf(world, plan.tag, m);
        if !answered || (at.Some? && at.value != m.sha) {
          Record(me, plan, Checking(i, pending), Halted(Refused));
          UnsettledWhen(world, plan.tag, plan.members);
          assert m in plan.members;
          return false, pending;
        }
        Record(me, plan, Checking(i, pending), Checking(i + 1, if at.Some? then pending else pending + [m]));
        if at.None? {
          pending := pending + [m];
        }
        i := i + 1;
      }
      assert plan.members[..i] == plan.members;
      Record(me, plan, Checking(i, pending), Looking(pending));
      ok := true;
    }

    /** One of the uploads: other runs may have come first. */
    method AttachNext(plan: Plan, asset: Staged, id: nat, ghost me: nat, ghost pc: Pc) returns (ok: bool)
      requires Valid() && At(me, plan, pc) && pc.Uploading? && pc.id == id && pc.k < |pc.assets| && pc.assets[pc.k] == asset
      requires id < |world.releases|
      modifies this
      ensures Valid() && old(history) <= history && |old(procs)| <= |procs| && id < |world.releases|
      ensures At(me, plan, if ok then Uploading(pc.pending, pc.assets, id, pc.k + 1) else Halted(Broken))
      ensures alone && ok ==> Accepts(old(world), id, asset) && world == Attached(old(world), id, asset)
      ensures alone && healthy && !ok ==> !Accepts(old(world), id, asset) && world == old(world)
      ensures ok ==> failures == old(failures)
      ensures !ok ==> Left(me, pc)
    {
      Interfere(me);
      ok := UploadAsset(plan, asset, id, me, pc);
    }

    /** Every asset, in order, up to the first that fails or is refused. */
    method AttachEach(plan: Plan, pending: seq<Member>, assets: seq<Staged>, id: nat, ghost me: nat) returns (ok: bool)
      requires Valid() && At(me, plan, Uploading(pending, assets, id, 0)) && id < |world.releases|
      modifies this
      ensures Valid() && old(history) <= history && |old(procs)| <= |procs| && id < |world.releases|
      ensures At(me, plan, if ok then Uploading(pending, assets, id, |assets|) else Halted(Broken))
      ensures alone && ok ==> (world, true) == AttachAll(old(world), id, assets)
      ensures alone && healthy ==> (world, ok) == AttachAll(old(world), id, assets)
      ensures ok ==> failures == old(failures)
      ensures !ok ==> exists k :: Left(me, Uploading(pending, assets, id, k))
    {
      var k := 0;
      while k < |assets|
        invariant k <= |assets|
        invariant Valid() && old(history) <= history && |old(procs)| <= |procs| && id < |world.releases|
        invariant At(me, plan, Uploading(pending, assets, id, k)) && failures == old(failures)
        invariant alone ==> (world, true) == AttachAll(old(world), id, assets[..k])
      {
        ghost var next := assets[..k + 1];
        assert next[..|next| - 1] == assets[..k] && next[|next| - 1] == assets[k];
        ok := AttachNext(plan, assets[k], id, me, Uploading(pending, assets, id, k));
        if !ok {
          if alone && healthy { AttachAllStops(old(world), id, assets, k + 1); }
          return;
        }
        k := k + 1;
      }
      assert assets[..k] == assets;
      ok := true;
    }

    /** The draft release and every asset on it, before any tag. */
    method Draft(plan: Plan, pending: seq<Member>, assets: seq<Staged>, ghost me: nat) returns (id: Option<nat>)
      requires Valid() && At(me, plan, Drafting(pending, assets))
      modifies this
      ensures Valid() && old(history) <= history && |old(procs)| <= |procs|
      ensures id.Some? ==> id.value < |world.releases| && At(me, plan, Tagging(pending, 0, id, AskRemote))
      ensures id.None? ==> At(me, plan, Halted(Broken))
      ensures alone && id.Some? ==> id.value == |old(world.releases)|
      ensures alone && id.Some? ==> (world, true) == Prepared(old(world), plan, assets)
      ensures alone && healthy ==> (world, id.Some?) == Prepared(old(world), plan, assets)
      ensures id.Some? ==> failures == old(failures)
      ensures id.None? ==> Left(me, Drafting(pending, assets)) || exists own, k :: Left(me, Uploading(pending, assets, own, k))
    {
      Interfere(me);
      id := CreateDraftRelease(plan, me, Drafting(pending, assets));
      if id.None? {
        return;
      }
      var ok := AttachEach(plan, pending, assets, id.value, me);
      if !ok {
        return None;
      }
      Record(me, plan, Uploading(pending, assets, id.value, |assets|), Tagging(pending, 0, id, AskRemote));
    }

    /** Tags every pending member, in order, and stops at the first that cannot be tagged. */
    method TagPending(plan: Plan, pending: seq<Member>, draft: Option<nat>, ghost me: nat) returns (ok: bool, tagged: seq<Member>)
      requires Valid() && At(me, plan, Tagging(pending, 0, draft, AskRemote))
      modifies this
      ensures Valid() && old(history) <= history && |old(procs)| <= |procs| && Grows(old(world), world)
      ensures At(me, plan, if ok then Tagging(pending, |pending|, draft, AskRemote) else Halted(Broken))
      ensures tagged <= pending && (ok <==> tagged == pending)
      ensures alone && healthy && !ok ==> StopsAfter(old(world), plan.tag, pending, tagged)
      ensures forall m :: m in tagged ==> Carried(world, plan.tag, m)
      ensures alone ==> world.releases == old(world.releases)
      ensures alone && healthy ==> (world, ok) == TagAll(old(world), plan.tag, pending)
      ensures ok ==> failures == old(failures)
      ensures !ok ==> LeftTag(me, Tagging(pending, |tagged|, draft, AskRemote))
    {
      tagged := [];
      var k := 0;
      GrowsNot(world);
      while k < |pending|
        invariant k <= |pending| && tagged == pending[..k]
        invariant Valid() && old(history) <= history && |old(procs)| <= |procs| && Grows(old(world), world)
        invariant At(me, plan, Tagging(pending, k, draft, AskRemote)) && failures == old(failures)
        invariant forall m :: m in tagged ==> Carried(world, plan.tag, m)
        invariant alone ==> world.releases == old(world.releases)
        invariant alone && healthy ==> (world, true) == TagAll(old(world), plan.tag, pending[..k])
      {
        ghost var before := world;
        if alone && healthy { OneMoreTagged(old(world), before, plan.tag, pending, k); }
        ok := Tag(plan, pending[k], me, Tagging(pending, k, draft, AskRemote));
        GrowsOn(old(world), before, world);
        CarriedStill(before, world, plan.tag, tagged);
        if !ok {
          if alone && healthy { TagAllStops(old(world), plan.tag, pending, k + 1); }
          return false, tagged;
        }
        tagged := tagged + [pending[k]];
        k := k + 1;
      }
      assert pending[..k] == pending;
      ok := true;
    }

    /** The release under the tag is looked up; with it there and nobody pending, the run has nothing to do. */
    method LookUp(plan: Plan, pending: seq<Member>, ghost me: nat) returns (stop: Option<Result>, found: bool)
      requires Valid() && At(me, plan, Looking(pending))
      modifies this
      ensures Valid() && old(history) <= history && |old(procs)| <= |procs|
      ensures stop in {None, Some(Refused), Some(Converged)}
      ensures At(me, plan, if stop.Some? then Halted(stop.value) else Staging(pending, found))
      ensures alone ==> world == old(world)
      ensures healthy ==> stop != Some(Refused)
      ensures alone && stop != Some(Refused) ==>
        && found == VisibleUnder(world, plan.home, plan.tag)
        && (stop.Some? <==> plan.members != [] && pending == [] && found)
      ensures stop != Some(Refused) ==> failures == old(failures)
    {
      Interfere(me);
      var answered := Answers();
      found := VisibleUnder(world, plan.home, plan.tag);
      if !answered {
        stop := Some(Refused);
      } else if |plan.members| > 0 && |pending| == 0 && found {
        stop := Some(Converged);
      } else {
        stop := None;
      }
      Record(me, plan, Looking(pending), if stop.Some? then Halted(stop.value) else Staging(pending, found));
    }

    /** Everything before the first write: preflight, the lookup, and reading every asset. */
    method Decide(plan: Plan, uploads: seq<Upload>, patterns: seq<Pattern>, disk: Disk, ghost me: nat)
      returns (stop: Option<Result>, pending: seq<Member>, found: bool, assets: seq<Staged>, index: string)
      requires Valid() && At(me, plan, Checking(0, [])) && plan.assetNames == AssetNames(uploads)
      modifies this
      ensures Valid() && old(history) <= history && |old(procs)| <= |procs|
      ensures stop.Some? ==> stop.value in {Refused, Converged} && At(me, plan, Halted(stop.value))
      ensures stop.None? ==> StagedFrom(uploads, patterns, disk, assets, index)
      ensures stop.None? ==> Complete(uploads, patterns, disk, assets)
      ensures stop.None? ==> At(me, plan, if found then Tagging(pending, 0, None, AskRemote) else Drafting(pending, assets))
      ensures (exists p :: p in patterns && !Answered(p, disk)) ==> stop.Some?
      ensures (exists u :: u in uploads && !Readable(u, disk)) ==> stop.Some?
      ensures alone ==> world == old(world)
      ensures alone && Unsettled(world, plan.tag, plan.members).None? ==> stop == Some(Refused)
      ensures alone && stop.None? ==>
        && Unsettled(world, plan.tag, plan.members) == Some(pending)
        && found == VisibleUnder(world, plan.home, plan.tag)
        && !(plan.members != [] && pending == [] && found)
      ensures alone && stop == Some(Converged) ==>
        && Unsettled(world, plan.tag, plan.members) == Some([])
        && VisibleUnder(world, plan.home, plan.tag) && plan.members != []
      ensures alone && healthy && stop == Some(Refused) ==>
        Unsettled(world, plan.tag, plan.members).None? || StagingFails(uploads, patterns, disk)
      ensures stop != Some(Refused) ==> failures == old(failures)
    {
      assets, index, found := [], "", false;
      var ok;
      ok, pending := Preflight(plan, me);
      if !ok {
        return Some(Refused), pending, found, assets, index;
      }
      stop, found := LookUp(plan, pending, me);
      if stop.Some? {
        return stop, pending, found, assets, index;
      }
      var staged;
      staged, index := Stage(uploads, patterns, disk);
      if staged.None? {
        Record(me, plan, Staging(pending, found), Halted(Refused));
        return Some(Refused), pending, found, assets, "";
      }
      assets := staged.value;
      StagingIsComplete(uploads, patterns, disk, assets, index);
      CompleteIsWhole(plan, uploads, patterns, disk, assets);
      Record(me, plan, Staging(pending, found),
             if found then Tagging(pending, 0, None, AskRemote) else Drafting(pending, assets));
      stop := None;
    }

    /** The last write, when everything else is in place. */
    method Show(plan: Plan, id: nat, ghost me: nat) returns (ok: bool)
      requires Valid() && At(me, plan, Publishing(id)) && id < |world.releases|
      modifies this
      ensures Valid() && old(history) <= history && |old(procs)| <= |procs| && Grows(old(world), world)
      ensures At(me, plan, Halted(if ok then Published else Broken))
      ensures alone && healthy ==> ok && world == Shown(old(world), id)
      ensures ok ==> failures == old(failures)
      ensures !ok ==> Left(me, Publishing(id))
    {
      Interfere(me);
      label showing:
      ok := PublishRelease(plan, id, me, Publishing(id));
      GrowsOn(old(world), old@showing(world), world);
    }

    /** The writes, in the order a crash cannot halve: the draft with its assets, the tags, the publish. */
    method CarryOut(plan: Plan, pending: seq<Member>, found: bool, assets: seq<Staged>, ghost me: nat)
      returns (result: Result, tagged: seq<Member>)
      requires Valid() && At(me, plan, if found then Tagging(pending, 0, None, AskRemote) else Drafting(pending, assets))
      modifies this
      ensures Valid() && old(history) <= history && |old(procs)| <= |procs|
      ensures At(me, plan, Halted(result)) && result in {Published, Broken}
      ensures tagged <= pending && (result == Published ==> tagged == pending)
      ensures alone && healthy && result == Broken ==>
        if found || Attachable(old(world), assets) then StopsAfter(old(world), plan.tag, pending, tagged) else tagged == []
      ensures forall m :: m in tagged ==> Carried(world, plan.tag, m)
      ensures alone && healthy ==>
        var prepared := if found then (old(world), true) else Prepared(old(world), plan, assets);
        var (w, ok) := TagAll(prepared.0, plan.tag, pending);
        (world, result) == if !prepared.1 then (prepared.0, Broken) else if !ok then (w, Broken)
          else if found then (w, Published) else (Shown(w, |old(world.releases)|), Published)
      ensures result == Published ==> failures == old(failures)
      ensures result == Broken ==> Reports(me, pending, assets, tagged)
    {
      tagged := [];
      var draft: Option<nat> := None;
      if !found {
        draft := Draft(plan, pending, assets, me);
        if draft.None? {
          PreparedFrame(old(world), plan, assets);
          return Broken, tagged;
        }
      }
      ghost var prepared := world;
      var ok;
      ok, tagged := TagPending(plan, pending, draft, me);
      if !ok {
        if alone && healthy {
          if !found { PreparedFrame(old(world), plan, assets); }
          StopsAlike(prepared, old(world), plan.tag, pending, tagged);
        }
        return Broken, tagged;
      }
      Record(me, plan, Tagging(pending, |pending|, draft, AskRemote),
             if found then Halted(Published) else Publishing(draft.value));
      if !found {
        ghost var before := world;
        ok := Show(plan, draft.value, me);
        CarriedStill(before, world, plan.tag, tagged);
        if !ok {
          return Broken, tagged;
        }
      }
      result := Published;
    }

    /**
     * One whole publish. It is a run of the protocol that ends in what it answers, so every law of
     * histories speaks about it. With no other run about, a bad ending before the first write leaves
     * the world as it was; and when no call fails either, it does exactly what a clean run does.
     */
    method Publish(home: string, tag: string, members: seq<Member>, uploads: seq<Upload>, patterns: seq<Pattern>, disk: Disk)
      returns (out: Output, ghost me: nat, ghost plan: Plan, ghost staged: Option<seq<Staged>>, ghost listed: seq<Member>)
      requires Valid()
      modifies this
      ensures plan == Plan(home, tag, members, AssetNames(uploads))
      ensures Valid() && old(history) <= history
      ensures home == "" ==> out.result == Refused && world == old(world) && history == old(history)
      ensures home != "" ==> me == |old(procs)| && At(me, plan, Halted(out.result))
      ensures alone && out.result in {Refused, Converged} ==> world == old(world)
      ensures alone && Unsettled(old(world), tag, members).None? ==> out.result == Refused
      ensures home != "" && alone && healthy && out.result == Refused ==>
        Unsettled(old(world), tag, members).None? || StagingFails(uploads, patterns, disk)
      ensures alone && out.result == Converged ==>
        members != [] && Unsettled(old(world), tag, members) == Some([]) && VisibleUnder(old(world), home, tag)
      ensures (exists p :: p in patterns && !Answered(p, disk)) ==> out.result in {Refused, Converged}
      ensures (exists u :: u in uploads && !Readable(u, disk)) ==> out.result in {Refused, Converged}
      ensures staged.None? <==> out.result in {Refused, Converged}
      ensures staged.None? ==> out.tagged == [] && out.index == ""
      ensures staged.Some? ==> StagedFrom(uploads, patterns, disk, staged.value, out.index)
      ensures staged.Some? ==> Complete(uploads, patterns, disk, staged.value)
      ensures staged.Some? ==> Delivers(world, owners, me, home, tag, staged.value, out.result == Published)
      ensures alone && healthy && staged.Some? ==> (world, out.result) == CleanRun(old(world), plan, staged.value)
      ensures alone && staged.Some? ==> Unsettled(old(world), tag, members) == Some(listed)
      ensures out.result == Published ==> out.tagged == listed
      ensures out.result == Broken ==> Reports(me, listed, staged.value, out.tagged)
      ensures alone && healthy && out.result == Broken ==>
        if CanRelease(old(world), plan, staged.value) then StopsAfter(old(world), tag, listed, out.tagged)
        else out.tagged == []
      ensures forall m :: m in out.tagged ==> Carried(world, tag, m)
      ensures out.result in {Published, Converged} ==> AllCarried(world, plan) && VisibleUnder(world, home, tag)
      ensures out.result in {Published, Converged} ==> failures == old(failures)
    {
      var p := Plan(home, tag, members, AssetNames(uploads));
      plan, staged, me, listed := p, None, |procs|, [];
      if home == "" {
        out := Output(Refused, [], "");
        return;
      }
      me := Spawn(p);
      var stop, pending, found, assets, index := Decide(p, uploads, patterns, disk, me);
      if stop.Some? {
        out := Output(stop.value, [], "");
      } else {
        staged, listed := Some(assets), pending;
        ghost var decided := |history| - 1;
        var result, tagged := CarryOut(p, pending, found, assets, me);
        out := Output(result, tagged, index);
        OwnReleases(history, decided, me, pending, assets);
      }
      if out.result in {Published, Converged} {
        SuccessMeansReleased(history, |history| - 1, me);
      }
    }
  }
}
