/** What a clean run achieves, what it leaves when it fails, and that interrupted runs converge. */
module ProtocolRuns {
  import opened Assets
  import opened Protocol
  import opened ProtocolClean
  import opened ProtocolSafety
  import opened Text

  /** What a clean run has made before it tags: a draft of its own, whole when the store took every asset. */
  lemma PreparedFrame(w: World, plan: Plan, assets: seq<Staged>)
    ensures
      var d := Prepared(w, plan, assets).0;
      && Grows(w, d) && d.remote == w.remote && d.local == w.local
      && |d.releases| == |w.releases| + 1
      && d.releases[|w.releases|].draft && SameName(d.releases[|w.releases|], Release(plan.home, plan.tag, true, map[]))
    ensures Prepared(w, plan, assets).1 <==> Attachable(w, assets)
    ensures Prepared(w, plan, assets).1 ==>
      IsMadeOf(w, Prepared(w, plan, assets).0.releases[|w.releases|], assets)
  {
    var d, id := Drafted(w, plan.home, plan.tag), |w.releases|;
    AttachAllFrame(d, id, assets);
    AttachAllExactly(d, id, assets);
    assert Grows(w, d);
    GrowsOn(w, d, AttachAll(d, id, assets).0);
    assert ReleaseGrows(d.releases[id], AttachAll(d, id, assets).0.releases[id], d.overwrites);
  }

  ghost predicate SameName(r: Release, r': Release) {
    r.home == r'.home && r.tag == r'.tag
  }

  /** The tagging a clean run does succeeds exactly without a conflict. */
  lemma TaggingSucceeds(w: World, w1: World, plan: Plan)
    requires Grows(w, w1) && w1.remote == w.remote && w1.local == w.local
    requires Unsettled(w, plan.tag, plan.members).Some?
    ensures TagAll(w1, plan.tag, Unsettled(w, plan.tag, plan.members).value) == TagAll(w1, plan.tag, plan.members)
    ensures TagAll(w1, plan.tag, plan.members).1 <==> NoConflict(w, plan)
    ensures TagAll(w1, plan.tag, plan.members).1 ==> AllCarried(TagAll(w1, plan.tag, plan.members).0, plan)
  {
    UnsettledLeavesOut(w, plan.tag, plan.members);
    SettledAreSkipped(w, w1, plan.tag, plan.members, Unsettled(w, plan.tag, plan.members).value);
    TagAllGrows(w1, plan.tag, plan.members);
    TagAllWhenClear(w1, plan.tag, plan.members, |plan.members|);
    assert plan.members[..|plan.members|] == plan.members;
    ClearLooksAtTags(w, w1, plan);
  }

  /** Preflight can see it: a member's remote has the tag at another commit. */
  ghost predicate RemoteConflict(w: World, plan: Plan) {
    exists m :: m in plan.members && RemoteOf(w, plan.tag, m).Some? && RemoteOf(w, plan.tag, m).value != m.sha
  }

  /** The run has a release to find, or the store takes the one it makes. */
  ghost predicate CanRelease(w: World, plan: Plan, assets: seq<Staged>) {
    VisibleUnder(w, plan.home, plan.tag) || Attachable(w, assets)
  }

  /** A conflict on a remote is met by preflight, and the world is left as it was. */
  lemma RemoteConflictIsRefused(w: World, plan: Plan, assets: seq<Staged>)
    ensures CleanRun(w, plan, assets).1 == Refused <==> RemoteConflict(w, plan)
    ensures CleanRun(w, plan, assets).1 == Refused || CleanRun(w, plan, assets).1 == Converged ==>
      CleanRun(w, plan, assets).0 == w
  {
    UnsettledWhen(w, plan.tag, plan.members);
  }

  lemma RemoteConflictIsAConflict(w: World, plan: Plan)
    requires RemoteConflict(w, plan)
    ensures !NoConflict(w, plan)
  {
    var m :| m in plan.members && RemoteOf(w, plan.tag, m).Some? && RemoteOf(w, plan.tag, m).value != m.sha;
    var n :| 0 <= n < |plan.members| && plan.members[n] == m;
    assert !Clear(w, plan.tag, plan.members, n);
  }

  /** A clean run succeeds exactly when no conflicting tag and no clash of asset names stands in its way. */
  lemma CleanRunSucceedsExactly(w: World, plan: Plan, assets: seq<Staged>)
    ensures CleanRun(w, plan, assets).1 in {Published, Converged} <==> NoConflict(w, plan) && CanRelease(w, plan, assets)
  {
    RemoteConflictIsRefused(w, plan, assets);
    if RemoteConflict(w, plan) {
      RemoteConflictIsAConflict(w, plan);
    } else {
      PreparedFrame(w, plan, assets);
      GrowsNot(w);
      TaggingSucceeds(w, w, plan);
      TaggingSucceeds(w, Prepared(w, plan, assets).0, plan);
      if Unsettled(w, plan.tag, plan.members).value == [] {
        assert TagAll(w, plan.tag, []).1;
      }
    }
  }

  /**
   * And then every member is tagged and a release is visible. One this run made is made of its assets,
   * and holds each of them under its name exactly when no two clash.
   */
  lemma CleanRunReleases(w: World, plan: Plan, assets: seq<Staged>)
    requires CleanRun(w, plan, assets).1 in {Published, Converged}
    ensures Grows(w, CleanRun(w, plan, assets).0)
    ensures AllCarried(CleanRun(w, plan, assets).0, plan)
    ensures VisibleUnder(CleanRun(w, plan, assets).0, plan.home, plan.tag)
    ensures VisibleUnder(w, plan.home, plan.tag) ==> CleanRun(w, plan, assets).0.releases == w.releases
    ensures !VisibleUnder(w, plan.home, plan.tag) ==>
      && |CleanRun(w, plan, assets).0.releases| == |w.releases| + 1
      && var r := CleanRun(w, plan, assets).0.releases[|w.releases|];
         && IsVisible(r, plan.home, plan.tag) && IsMadeOf(w, r, assets) && (Holds(r, assets) <==> NoClash(assets))
  {
    UnsettledWhen(w, plan.tag, plan.members);
    GrowsNot(w);
    if VisibleUnder(w, plan.home, plan.tag) {
      TaggingSucceeds(w, w, plan);
      TagAllGrows(w, plan.tag, plan.members);
      if CleanRun(w, plan, assets).1 == Converged {
        assert TagAll(w, plan.tag, []) == (w, true);
      }
      VisibleStays(w, CleanRun(w, plan, assets).0, plan.home, plan.tag);
    } else {
      NewReleaseIsShown(w, plan, assets);
    }
  }

  lemma NewReleaseIsShown(w: World, plan: Plan, assets: seq<Staged>)
    requires CleanRun(w, plan, assets).1 == Published && !VisibleUnder(w, plan.home, plan.tag)
    ensures Grows(w, CleanRun(w, plan, assets).0)
    ensures AllCarried(CleanRun(w, plan, assets).0, plan)
    ensures |CleanRun(w, plan, assets).0.releases| == |w.releases| + 1
    ensures
      var r := CleanRun(w, plan, assets).0.releases[|w.releases|];
      IsVisible(r, plan.home, plan.tag) && IsMadeOf(w, r, assets) && (Holds(r, assets) <==> NoClash(assets))
  {
    var d, id := Prepared(w, plan, assets).0, |w.releases|;
    PreparedFrame(w, plan, assets);
    MadeOfHolds(w, d.releases[id], assets);
    TaggingSucceeds(w, d, plan);
    TagAllGrows(d, plan.tag, plan.members);
    var t := TagAll(d, plan.tag, plan.members).0;
    assert Grows(t, Shown(t, id));
    GrowsOn(w, d, t);
    GrowsOn(w, t, Shown(t, id));
    AllCarriedStays(t, Shown(t, id), plan);
  }

  /**
   * Two files that one pattern matches under one name: a store that refuses the second leaves the run
   * broken, one that takes it makes visible a release without the first.
   */
  lemma ClashingNamesLoseAFile(overwrites: bool) returns (w: World, plan: Plan)
    ensures w.overwrites == overwrites && NoConflict(w, plan)
    ensures StagedFrom([], TWO_APPS, TwoAppsDisk(), TWO_APPS_STAGED, "{}")
    ensures !overwrites ==> CleanRun(w, plan, TWO_APPS_STAGED).1 == Broken
    ensures overwrites ==>
      && CleanRun(w, plan, TWO_APPS_STAGED).1 == Published
      && |CleanRun(w, plan, TWO_APPS_STAGED).0.releases| == 1
      && !Holds(CleanRun(w, plan, TWO_APPS_STAGED).0.releases[0], TWO_APPS_STAGED)
  {
    w, plan := World(map[], map[], map[], [], overwrites), Plan("owner/home", "v1.0.0", [], []);
    TwoAppsClash();
    CleanRunSucceedsExactly(w, plan, TWO_APPS_STAGED);
    RemoteConflictIsRefused(w, plan, TWO_APPS_STAGED);
    if overwrites { CleanRunReleases(w, plan, TWO_APPS_STAGED); }
  }

  // ------------------------------------------------------------ what a failing run leaves

  /**
   * Preflight does not look at checkouts: a conflict that is only there breaks the run after the
   * writes have begun, and so does a clash of asset names. If it found a release, all releases stay as
   * they are; if not, its draft is left, whole unless names clashed.
   */
  lemma LocalConflictLeavesADraft(w: World, plan: Plan, assets: seq<Staged>)
    ensures CleanRun(w, plan, assets).1 == Broken <==>
      !RemoteConflict(w, plan) && !(NoConflict(w, plan) && CanRelease(w, plan, assets))
    ensures CleanRun(w, plan, assets).1 == Broken && VisibleUnder(w, plan.home, plan.tag) ==>
      CleanRun(w, plan, assets).0.releases == w.releases
    ensures CleanRun(w, plan, assets).1 == Broken && !VisibleUnder(w, plan.home, plan.tag) ==>
      && |CleanRun(w, plan, assets).0.releases| == |w.releases| + 1
      && CleanRun(w, plan, assets).0.releases[|w.releases|].draft
      && (Attachable(w, assets) ==> IsMadeOf(w, CleanRun(w, plan, assets).0.releases[|w.releases|], assets))
  {
    CleanRunSucceedsExactly(w, plan, assets);
    RemoteConflictIsRefused(w, plan, assets);
    PreparedFrame(w, plan, assets);
  }

  ghost predicate IsFirstUnclear(w: World, tag: string, ms: seq<Member>, n: nat) {
    n < |ms| && !Clear(w, tag, ms, n) && forall j :: 0 <= j < n ==> Clear(w, tag, ms, j)
  }

  lemma {:induction false} FirstUnclear(w: World, tag: string, ms: seq<Member>, k: nat) returns (n: nat)
    requires k < |ms| && !Clear(w, tag, ms, k)
    ensures IsFirstUnclear(w, tag, ms, n)
    decreases k
  {
    if j: nat :| j < k && !Clear(w, tag, ms, j) {
      n := FirstUnclear(w, tag, ms, j);
    } else {
      n := k;
    }
  }

  /** The tagging goes as far as the first member that is not clear. */
  lemma TagAllGoesSoFar(w: World, tag: string, ms: seq<Member>, n: nat)
    requires IsFirstUnclear(w, tag, ms, n)
    ensures TagAll(w, tag, ms[..n]).1 && TagAll(w, tag, ms) == (TagAll(w, tag, ms[..n]).0, false)
  {
    TagAllWhenClear(w, tag, ms, n);
    TagAllWhenClear(w, tag, ms, n + 1);
    assert ms[..n + 1][..n] == ms[..n];
    TagAllStops(w, tag, ms, n + 1);
  }

  lemma BrokenRunTagsAsTagAll(w: World, plan: Plan, assets: seq<Staged>)
    requires CleanRun(w, plan, assets).1 == Broken && CanRelease(w, plan, assets)
    ensures AllTagsAlike(TagAll(w, plan.tag, plan.members).0, CleanRun(w, plan, assets).0)
  {
    var found := VisibleUnder(w, plan.home, plan.tag);
    var w1 := if found then w else Prepared(w, plan, assets).0;
    GrowsNot(w);
    if !found { PreparedFrame(w, plan, assets); }
    TaggingSucceeds(w, w1, plan);
    TagAllLooksAtTags(w, w1, plan.tag, plan.members);
  }

  /** The tags a broken run leaves: those of the members before the first one that is not clear, all carried. */
  lemma BrokenRunTagsThoseBefore(w: World, plan: Plan, assets: seq<Staged>, n: nat)
    requires CleanRun(w, plan, assets).1 == Broken && CanRelease(w, plan, assets)
    requires IsFirstUnclear(w, plan.tag, plan.members, n)
    ensures AllTagsAlike(TagAll(w, plan.tag, plan.members[..n]).0, CleanRun(w, plan, assets).0)
    ensures forall j :: 0 <= j < n ==> Carried(CleanRun(w, plan, assets).0, plan.tag, plan.members[j])
  {
    var front := plan.members[..n];
    BrokenRunTagsAsTagAll(w, plan, assets);
    TagAllGoesSoFar(w, plan.tag, plan.members, n);
    TagAllGrows(w, plan.tag, front);
    forall j | 0 <= j < n
      ensures Carried(CleanRun(w, plan, assets).0, plan.tag, plan.members[j])
    {
      assert plan.members[j] in front;
      CarriedAlike(TagAll(w, plan.tag, front).0, CleanRun(w, plan, assets).0, plan.tag, plan.members[j]);
    }
  }

  /** Every member with a remote is on it already. */
  ghost predicate NothingToPush(w: World, tag: string, ms: seq<Member>) {
    forall m :: m in ms && m.dir in w.origin ==> RemoteOf(w, tag, m).Some?
  }

  lemma {:induction false} NothingIsPushed(w: World, tag: string, ms: seq<Member>)
    requires NothingToPush(w, tag, ms)
    ensures TagAll(w, tag, ms).0.remote == w.remote
  {
    if ms != [] {
      var front, m := ms[..|ms| - 1], ms[|ms| - 1];
      InFrontOrLast(ms);
      NothingIsPushed(w, tag, front);
      TagAllGrows(w, tag, front);
      assert RemoteOf(TagAll(w, tag, front).0, tag, m) == RemoteOf(w, tag, m);
    }
  }

  /** Tagging leaves the remotes as they were exactly when there was nothing to push. */
  lemma RemotesAreKeptExactly(w: World, tag: string, ms: seq<Member>)
    requires TagAll(w, tag, ms).1
    ensures TagAll(w, tag, ms).0.remote == w.remote <==> NothingToPush(w, tag, ms)
  {
    TagAllGrows(w, tag, ms);
    if NothingToPush(w, tag, ms) { NothingIsPushed(w, tag, ms); }
    if TagAll(w, tag, ms).0.remote == w.remote {
      forall m | m in ms && m.dir in w.origin
        ensures RemoteOf(w, tag, m).Some?
      {
        assert Carried(TagAll(w, tag, ms).0, tag, m);
      }
    }
  }

  /**
   * Failing before a remote is touched: a clean run that fails leaves every remote as it was exactly when
   * preflight could see the conflict, or the store refused an asset, or nothing was to be pushed for the
   * members before the first one that is not clear.
   */
  lemma FailingRunKeepsRemotesExactly(w: World, plan: Plan, assets: seq<Staged>)
    requires CleanRun(w, plan, assets).1 in {Refused, Broken}
    ensures CleanRun(w, plan, assets).0.remote == w.remote <==>
      || RemoteConflict(w, plan)
      || !CanRelease(w, plan, assets)
      || forall n: nat :: IsFirstUnclear(w, plan.tag, plan.members, n) ==> NothingToPush(w, plan.tag, plan.members[..n])
  {
    RemoteConflictIsRefused(w, plan, assets);
    if !RemoteConflict(w, plan) {
      PreparedFrame(w, plan, assets);
      if CanRelease(w, plan, assets) {
        CleanRunSucceedsExactly(w, plan, assets);
        var k :| 0 <= k < |plan.members| && !Clear(w, plan.tag, plan.members, k);
        var n := FirstUnclear(w, plan.tag, plan.members, k);
        BrokenRunTagsThoseBefore(w, plan, assets, n);
        TagAllGoesSoFar(w, plan.tag, plan.members, n);
        RemotesAreKeptExactly(w, plan.tag, plan.members[..n]);
        assert forall l: nat :: IsFirstUnclear(w, plan.tag, plan.members, l) ==> l == n;
      }
    }
  }

  /** It can happen: the first member's remote is tagged before the second's checkout is looked at. */
  lemma AFailingRunCanTagARemote(assets: seq<Staged>) returns (w: World, plan: Plan)
    requires DistinctNames(assets)
    ensures |plan.members| == 2 && w.remote == map[] && w.releases == []
    ensures CleanRun(w, plan, assets).1 == Broken
    ensures RemoteOf(CleanRun(w, plan, assets).0, plan.tag, plan.members[0]) == Some(plan.members[0].sha)
    ensures CleanRun(w, plan, assets).0.remote != w.remote
  {
    var tag, a, b := "v1.0.0", Member("a", "1"), Member("b", "2");
    w := World(map["a" := "host/a", "b" := "host/b"], map[], map[("b", tag) := "other"], [], false);
    plan := Plan("owner/home", tag, [a, b], []);
    assert Clear(w, tag, plan.members, 0) && !Clear(w, tag, plan.members, 1);
    assert IsFirstUnclear(w, tag, plan.members, 1);
    RemoteConflictIsRefused(w, plan, assets);
    CleanRunSucceedsExactly(w, plan, assets);
    BrokenRunTagsThoseBefore(w, plan, assets, 1);
    TagAllTouches(w, tag, plan.members[..1]);
  }

  // ------------------------------------------------------------ interrupted runs converge

  /** Where a member of the one is the same place to tag as a member of the other, they want one commit. */
  ghost predicate SameCommits(w: World, own: seq<Member>, ms: seq<Member>) {
    forall m, n :: m in own && n in ms && SamePlace(w, m, n) ==> m.sha == n.sha
  }

  /** No run under the plan's tag wants another commit in a place of the plan's, whichever clones it works in. */
  ghost predicate Agree(s: Sys, plan: Plan) {
    forall p :: 0 <= p < |s.procs| && s.procs[p].plan.tag == plan.tag ==>
      SameCommits(s.w, s.procs[p].plan.members, plan.members)
  }

  /** A plan without conflict agrees with itself ... */
  lemma PlanAgreesWithItself(w: World, plan: Plan)
    requires NoConflict(w, plan)
    ensures SameCommits(w, plan.members, plan.members)
  {
    forall m, n | m in plan.members && n in plan.members && SamePlace(w, m, n)
      ensures m.sha == n.sha
    {
      var i, j :| 0 <= i < |plan.members| && 0 <= j < |plan.members| && plan.members[i] == m && plan.members[j] == n;
      assert Clear(w, plan.tag, plan.members, i) && Clear(w, plan.tag, plan.members, j);
    }
  }

  /** ... so runs of one plan always agree. */
  lemma RunsOfOnePlanAgree(s: Sys, plan: Plan)
    requires NoConflict(s.w, plan)
    requires forall p :: 0 <= p < |s.procs| && s.procs[p].plan.tag == plan.tag ==> s.procs[p].plan.members == plan.members
    ensures Agree(s, plan)
  {
    PlanAgreesWithItself(s.w, plan);
  }

  lemma ClearStays(w: World, w': World, tag: string, ms: seq<Member>, n: nat)
    requires n < |ms| && Clear(w, tag, ms, n) && w'.origin == w.origin
    requires RemoteOf(w', tag, ms[n]) == RemoteOf(w, tag, ms[n]) || RemoteOf(w', tag, ms[n]) == Some(ms[n].sha)
    requires LocalOf(w', tag, ms[n]) == LocalOf(w, tag, ms[n]) || LocalOf(w', tag, ms[n]) == Some(ms[n].sha)
    ensures Clear(w', tag, ms, n)
  {
    assert forall j :: 0 <= j < n ==> SamePlace(w', ms[j], ms[n]) == SamePlace(w, ms[j], ms[n]);
  }

  /** A tag at a commit the plan agrees with is no conflict of the plan's. */
  lemma AgreedTagIsNoConflict(w: World, w': World, plan: Plan, m: Member)
    requires NoConflict(w, plan) && TagsOnly(w, w', plan.tag, m)
    requires forall n :: n in plan.members && SamePlace(w, m, n) ==> m.sha == n.sha
    ensures NoConflict(w', plan)
  {
    forall n | 0 <= n < |plan.members|
      ensures Clear(w', plan.tag, plan.members, n)
    {
      var o := plan.members[n];
      if SamePlace(w, m, o) {
        assert o in plan.members && m.sha == o.sha;
        assert RemoteOf(w', plan.tag, o) in {RemoteOf(w, plan.tag, o), Some(m.sha)};
        assert LocalOf(w', plan.tag, o) in {LocalOf(w, plan.tag, o), Some(m.sha)};
      } else {
        assert SameTags(w, w', plan.tag, o);
      }
      ClearStays(w, w', plan.tag, plan.members, n);
    }
  }

  lemma TagWriteFrame(tag: string, m: Member, pc: Pc, w: World, pc': Pc, w': World, other: string)
    requires pc.Tagging? && TagWrites(tag, m, pc, w, pc', w')
    requires pc.at.Push? ==> LocalOf(w, tag, m) == Some(m.sha)
    ensures w'.origin == w.origin
    ensures other != tag ==> forall o :: SameTags(w, w', other, o)
    ensures TagsOnly(w, w', tag, m)
  {
  }

  lemma OtherTagIsNoConflict(w: World, w': World, plan: Plan)
    requires NoConflict(w, plan) && w'.origin == w.origin
    requires forall o :: SameTags(w, w', plan.tag, o)
    ensures NoConflict(w', plan)
  {
    forall n | 0 <= n < |plan.members|
      ensures Clear(w', plan.tag, plan.members, n)
    {
      assert SameTags(w, w', plan.tag, plan.members[n]);
      ClearStays(w, w', plan.tag, plan.members, n);
    }
  }

  lemma StepKeepsNoConflict(s: Sys, s': Sys, p: nat, plan: Plan)
    requires Inv(s) && Steps(s, s', p) && Agree(s, plan) && NoConflict(s.w, plan)
    ensures NoConflict(s'.w, plan)
  {
    var own, pc, pc' := s.procs[p].plan, s.procs[p].pc, s'.procs[p].pc;
    assert RunInv(s.w, s.owners, p, own, pc);
    StepGrows(s, s');
    if s'.w.remote == s.w.remote && s'.w.local == s.w.local {
      ClearLooksAtTags(s.w, s'.w, plan);
    } else {
      var m := pc.pending[pc.k];
      assert m in pc.pending[pc.k..];
      TagWriteFrame(own.tag, m, pc, s.w, pc', s'.w, plan.tag);
      if own.tag == plan.tag {
        AgreedTagIsNoConflict(s.w, s'.w, plan, m);
      } else {
        OtherTagIsNoConflict(s.w, s'.w, plan);
      }
    }
  }

  lemma AgreeBefore(s: Sys, s': Sys, plan: Plan)
    requires Next(s, s') && Agree(s', plan)
    ensures Agree(s, plan)
  {
    StepGrows(s, s');
    forall p | 0 <= p < |s.procs| && s.procs[p].plan.tag == plan.tag
      ensures SameCommits(s.w, s.procs[p].plan.members, plan.members)
    {
      PlanIsKept(s, s', p);
    }
  }

  lemma PlanIsKept(s: Sys, s': Sys, p: nat)
    requires Next(s, s') && p < |s.procs|
    ensures p < |s'.procs| && s'.procs[p].plan == s.procs[p].plan
  {
  }

  lemma NextKeepsNoConflict(s: Sys, s': Sys, plan: Plan)
    requires Inv(s) && Next(s, s') && Agree(s, plan) && NoConflict(s.w, plan)
    ensures NoConflict(s'.w, plan)
  {
    if p: nat :| Steps(s, s', p) {
      StepKeepsNoConflict(s, s', p, plan);
    }
  }

  /** Runs that agree with the plan, interrupted anywhere, put no conflict in its way. */
  lemma {:induction false} NoConflictAlways(h: seq<Sys>, c: nat, i: nat, plan: Plan)
    requires IsHistory(h) && c <= i < |h| && Agree(h[i], plan) && NoConflict(h[c].w, plan)
    ensures NoConflict(h[i].w, plan)
    decreases i - c
  {
    if c < i {
      assert Follows(h, i - 1);
      AgreeBefore(h[i - 1], h[i], plan);
      NoConflictAlways(h, c, i - 1, plan);
      InvAlways(h, i - 1);
      NextKeepsNoConflict(h[i - 1], h[i], plan);
    }
  }

  /**
   * Crash recovery: begin with no conflicting tag, let any number of runs that agree with the plan be
   * interrupted anywhere, in any interleaving and in whatever clones; then one clean run tags every member
   * and leaves a visible release, unless there is none to be found and the store refuses an asset.
   */
  lemma InterruptedRunsConverge(h: seq<Sys>, i: nat, plan: Plan, assets: seq<Staged>)
    requires IsHistory(h) && i < |h| && Agree(h[i], plan) && NoConflict(h[0].w, plan)
    ensures
      var (w, result) := CleanRun(h[i].w, plan, assets);
      && (result in {Published, Converged} <==> CanRelease(h[i].w, plan, assets))
      && (result in {Published, Converged} ==> AllCarried(w, plan) && VisibleUnder(w, plan.home, plan.tag))
  {
    NoConflictAlways(h, 0, i, plan);
    CleanRunSucceedsExactly(h[i].w, plan, assets);
    if CleanRun(h[i].w, plan, assets).1 in {Published, Converged} { CleanRunReleases(h[i].w, plan, assets); }
  }

  /** The same repos at the same commits, in fresh clones of the same remotes that carry no tag. */
  ghost predicate InFreshClones(w: World, plan: Plan, again: Plan) {
    && again.home == plan.home && again.tag == plan.tag && |again.members| == |plan.members|
    && forall n :: 0 <= n < |plan.members| ==>
      var m, m' := plan.members[n], again.members[n];
      && m'.sha == m.sha && m.dir in w.origin && m'.dir in w.origin && w.origin[m'.dir] == w.origin[m.dir]
      && LocalOf(w, again.tag, m').None?
  }

  lemma FreshClonesAreClear(w: World, plan: Plan, again: Plan)
    requires NoConflict(w, plan) && InFreshClones(w, plan, again)
    ensures NoConflict(w, again)
  {
    forall n | 0 <= n < |again.members|
      ensures Clear(w, again.tag, again.members, n)
    {
      assert Clear(w, plan.tag, plan.members, n);
      assert RemoteOf(w, again.tag, again.members[n]) == RemoteOf(w, plan.tag, plan.members[n]);
      forall j | 0 <= j < n && SamePlace(w, again.members[j], again.members[n])
        ensures again.members[j].sha == again.members[n].sha
      {
        assert SamePlace(w, plan.members[j], plan.members[n]);
      }
    }
  }

  lemma FreshClonesAgree(w: World, plan: Plan, again: Plan)
    requires NoConflict(w, plan) && InFreshClones(w, plan, again)
    ensures SameCommits(w, plan.members, again.members) && SameCommits(w, again.members, plan.members)
  {
    PlanAgreesWithItself(w, plan);
    forall m, n | m in plan.members && n in again.members && (SamePlace(w, m, n) || SamePlace(w, n, m))
      ensures m.sha == n.sha
    {
      var j :| 0 <= j < |again.members| && again.members[j] == n;
      assert SamePlace(w, m, plan.members[j]) && plan.members[j] in plan.members;
    }
  }

  /** Every run under the tag so far was of the plan itself, or of it in the fresh clones. */
  ghost predicate OnlyOf(s: Sys, plan: Plan, again: Plan) {
    forall p :: 0 <= p < |s.procs| && s.procs[p].plan.tag == plan.tag ==>
      s.procs[p].plan.members == plan.members || s.procs[p].plan.members == again.members
  }

  /**
   * The usual recovery: runs crash in their clones, later, at c, the repos are cloned afresh, and runs in
   * the new clones may crash too; a clean run there still finishes what was begun.
   */
  lemma FreshClonesConverge(h: seq<Sys>, c: nat, i: nat, plan: Plan, again: Plan, assets: seq<Staged>)
    requires IsHistory(h) && c <= i < |h| && NoConflict(h[0].w, plan)
    requires Agree(h[c], plan) && InFreshClones(h[c].w, plan, again) && OnlyOf(h[i], plan, again)
    ensures
      var (w, result) := CleanRun(h[i].w, again, assets);
      && (result in {Published, Converged} <==> CanRelease(h[i].w, again, assets))
      && (result in {Published, Converged} ==> AllCarried(w, again) && VisibleUnder(w, again.home, again.tag))
  {
    NoConflictAlways(h, 0, c, plan);
    FreshClonesAreClear(h[c].w, plan, again);
    FreshClonesAgree(h[c].w, plan, again);
    PlanAgreesWithItself(h[c].w, again);
    HistoryGrows(h, c, i);
    assert SameCommits(h[i].w, plan.members, again.members) && SameCommits(h[i].w, again.members, again.members);
    NoConflictAlways(h, c, i, again);
    CleanRunSucceedsExactly(h[i].w, again, assets);
    if CleanRun(h[i].w, again, assets).1 in {Published, Converged} { CleanRunReleases(h[i].w, again, assets); }
  }

  // ------------------------------------------------------------ and then stay as they are

  /** Every member is tagged and the release is there: nothing is left to do. */
  ghost predicate Settled(w: World, plan: Plan) {
    AllCarried(w, plan) && VisibleUnder(w, plan.home, plan.tag)
  }

  /** Of a settled plan only members without a remote can be pending. */
  ghost predicate OnlyLocal(w: World, plan: Plan, pending: seq<Member>) {
    forall m :: m in pending ==> m in plan.members && m.dir !in w.origin
  }

  /** Where a run that began in a settled world can be: never at a point from which it writes. */
  ghost predicate Quiet(w: World, plan: Plan, pc: Pc) {
    match pc
    case Checking(i, pending) => OnlyLocal(w, plan, pending)
    case Looking(pending) => OnlyLocal(w, plan, pending)
    case Staging(pending, found) => found && OnlyLocal(w, plan, pending)
    case Tagging(pending, k, draft, at) => draft.None? && (at.AskRemote? || at.AskLocal?) && OnlyLocal(w, plan, pending)
    case Halted(_) => true
    case _ => false
  }

  lemma QuietStep(s: Sys, s': Sys, p: nat)
    requires Steps(s, s', p) && Settled(s.w, s.procs[p].plan) && Quiet(s.w, s.procs[p].plan, s.procs[p].pc)
    ensures s'.w == s.w && s'.owners == s.owners
    ensures Quiet(s'.w, s'.procs[p].plan, s'.procs[p].pc)
  {
    var plan, pc := s.procs[p].plan, s.procs[p].pc;
    if pc.Checking? && pc.i < |plan.members| {
      assert plan.members[pc.i] in plan.members;
      assert Carried(s.w, plan.tag, plan.members[pc.i]);
    }
    if pc.Tagging? && pc.k < |pc.pending| {
      assert pc.pending[pc.k] in pc.pending;
      assert Carried(s.w, plan.tag, pc.pending[pc.k]);
    }
  }

  lemma SettledStays(w: World, w': World, plan: Plan)
    requires Grows(w, w') && Settled(w, plan)
    ensures Settled(w', plan)
  {
    AllCarriedStays(w, w', plan);
    VisibleStays(w, w', plan.home, plan.tag);
  }

  /** The plan is settled, and if run p is one of the plan it is quiet. */
  ghost predicate QuietRun(s: Sys, p: nat, plan: Plan) {
    Settled(s.w, plan) && (p < |s.procs| && s.procs[p].plan == plan ==> Quiet(s.w, plan, s.procs[p].pc))
  }

  lemma QuietNext(s: Sys, s': Sys, p: nat, plan: Plan)
    requires Next(s, s') && QuietRun(s, p, plan)
    ensures QuietRun(s', p, plan)
  {
    StepGrows(s, s');
    SettledStays(s.w, s'.w, plan);
    if p < |s.procs| && s.procs[p].plan == plan {
      if Steps(s, s', p) {
        QuietStep(s, s', p);
      } else {
        OtherLeavesRun(s, s', p);
      }
    } else if p < |s.procs| {
      PlanIsKept(s, s', p);
    }
  }

  lemma OtherLeavesRun(s: Sys, s': Sys, p: nat)
    requires Next(s, s') && p < |s.procs| && !Steps(s, s', p)
    ensures p < |s'.procs| && s'.procs[p] == s.procs[p]
  {
    if q: nat :| Steps(s, s', q) {
      assert q != p;
    }
  }

  /**
   * Once the plan is settled, whatever run of it starts later, and whatever else goes on meanwhile,
   * no step of that run changes a remote, a checkout or a release.
   */
  lemma FurtherRunsWriteNothing(h: seq<Sys>, i: nat, j: nat, p: nat)
    requires IsHistory(h) && i <= j < |h| - 1
    requires Steps(h[j], h[j + 1], p) && |h[i].procs| <= p
    requires Settled(h[i].w, h[j].procs[p].plan)
    ensures h[j + 1].w == h[j].w
  {
    var plan := h[j].procs[p].plan;
    forall k | i <= k < j && QuietRun(h[k], p, plan)
      ensures QuietRun(h[k + 1], p, plan)
    {
      assert Follows(h, k);
      QuietNext(h[k], h[k + 1], p, plan);
    }
    Always(h, i, j, (s: Sys) => QuietRun(s, p, plan));
    QuietStep(h[j], h[j + 1], p);
  }
}
