/** When a tag has at most one visible release, and that overlapping runs can make two. */
module ProtocolOverlap {
  import opened Assets
  import opened Protocol
  import opened ProtocolGoesOn
  import opened ProtocolClean
  import opened ProtocolRuns
  import opened ProtocolSafety

  ghost predicate UniqueVisible(w: World) {
    forall id, id' :: 0 <= id < id' < |w.releases| && !w.releases[id].draft && !w.releases[id'].draft ==>
      !SameName(w.releases[id], w.releases[id'])
  }

  /** The run has seen that there is no release yet and goes about making one. */
  predicate IsCreating(pc: Pc) {
    (pc.Staging? && !pc.found) || pc.Drafting? || pc.Uploading? || (pc.Tagging? && pc.draft.Some?) || pc.Publishing?
  }

  /** Two runs are both about to make the same release. */
  ghost predicate Overlap(s: Sys, p: nat, q: nat) {
    && p < |s.procs| && q < |s.procs| && p != q
    && s.procs[p].plan.home == s.procs[q].plan.home && s.procs[p].plan.tag == s.procs[q].plan.tag
    && IsCreating(s.procs[p].pc) && IsCreating(s.procs[q].pc)
  }

  ghost predicate NoOverlap(s: Sys) {
    forall p: nat, q: nat :: !Overlap(s, p, q)
  }

  /** Whoever goes about making a release is right that there is none. */
  ghost predicate RightlyCreating(s: Sys, p: nat)
    requires p < |s.procs|
  {
    IsCreating(s.procs[p].pc) ==> !VisibleUnder(s.w, s.procs[p].plan.home, s.procs[p].plan.tag)
  }

  ghost predicate UniqueInv(s: Sys) {
    UniqueVisible(s.w) && forall p :: 0 <= p < |s.procs| ==> RightlyCreating(s, p)
  }

  /** No step but the last one of a run makes anything visible. */
  lemma VisibleOnlyByShowing(s: Sys, s': Sys, p: nat)
    requires Steps(s, s', p) && !(s'.w.releases != s.w.releases && s.procs[p].pc.Publishing?)
    ensures |s.w.releases| <= |s'.w.releases|
    ensures forall id :: 0 <= id < |s'.w.releases| && !s'.w.releases[id].draft ==>
      id < |s.w.releases| && !s.w.releases[id].draft && SameName(s.w.releases[id], s'.w.releases[id])
  {
  }

  lemma StepKeepsUnique(s: Sys, s': Sys, p: nat)
    requires Inv(s) && UniqueInv(s) && Steps(s, s', p)
    ensures UniqueVisible(s'.w) && RightlyCreating(s', p)
  {
    var pc := s.procs[p].pc;
    assert RunInv(s.w, s.owners, p, s.procs[p].plan, pc) && RightlyCreating(s, p);
    if s'.w.releases != s.w.releases && pc.Publishing? {
      forall id | 0 <= id < |s.w.releases| && !s.w.releases[id].draft
        ensures !SameName(s.w.releases[id], s.w.releases[pc.id])
      {
        assert !IsVisible(s.w.releases[id], s.procs[p].plan.home, s.procs[p].plan.tag);
      }
    } else {
      VisibleOnlyByShowing(s, s', p);
    }
  }

  /** What becomes visible for one run is nothing another was rightly missing, unless they overlap. */
  lemma OthersStayRight(s: Sys, s': Sys, p: nat, q: nat)
    requires Inv(s) && UniqueInv(s) && Steps(s, s', p) && !Overlap(s, p, q) && q != p && q < |s.procs|
    ensures RightlyCreating(s', q)
  {
    var pc := s.procs[p].pc;
    assert RunInv(s.w, s.owners, p, s.procs[p].plan, pc) && RightlyCreating(s, q) && s'.procs[q] == s.procs[q];
    var home, tag := s.procs[q].plan.home, s.procs[q].plan.tag;
    if IsCreating(s.procs[q].pc) {
      var shows := s'.w.releases != s.w.releases && pc.Publishing?;
      if !shows { VisibleOnlyByShowing(s, s', p); }
      forall id | 0 <= id < |s'.w.releases|
        ensures !IsVisible(s'.w.releases[id], home, tag)
      {
        if id < |s.w.releases| { assert !IsVisible(s.w.releases[id], home, tag); }
      }
    }
  }

  lemma NextKeepsUnique(s: Sys, s': Sys)
    requires Inv(s) && UniqueInv(s) && Next(s, s') && NoOverlap(s)
    ensures UniqueInv(s')
  {
    if p: nat :| Steps(s, s', p) {
      StepKeepsUnique(s, s', p);
      forall q | 0 <= q < |s'.procs| && q != p
        ensures RightlyCreating(s', q)
      {
        OthersStayRight(s, s', p, q);
      }
    } else {
      var plan :| Spawns(s, s', plan);
      forall q | 0 <= q < |s'.procs|
        ensures RightlyCreating(s', q)
      {
        if q < |s.procs| { assert RightlyCreating(s, q) && s'.procs[q] == s.procs[q]; }
      }
    }
  }

  /** No two runs ever overlap before i. */
  ghost predicate NeverOverlaps(h: seq<Sys>, i: nat) {
    forall j :: 0 <= j < i && j < |h| ==> NoOverlap(h[j])
  }

  lemma {:induction false} UniqueAlways(h: seq<Sys>, i: nat)
    requires IsHistory(h) && UniqueVisible(h[0].w) && i < |h| && NeverOverlaps(h, i)
    ensures UniqueInv(h[i])
  {
    if i > 0 {
      UniqueAlways(h, i - 1);
      InvAlways(h, i - 1);
      assert Follows(h, i - 1) && NoOverlap(h[i - 1]);
      NextKeepsUnique(h[i - 1], h[i]);
    }
  }

  /**
   * A tag has at most one visible release in every history, with crashes anywhere and runs interleaved
   * as they like, in which no two runs are ever both about to make the same release.
   */
  lemma AtMostOneVisibleRelease(h: seq<Sys>, i: nat, id: nat, id': nat)
    requires IsHistory(h) && UniqueVisible(h[0].w) && i < |h| && NeverOverlaps(h, i)
    requires id < |h[i].w.releases| && id' < |h[i].w.releases|
    requires !h[i].w.releases[id].draft && !h[i].w.releases[id'].draft
    requires SameName(h[i].w.releases[id], h[i].w.releases[id'])
    ensures id == id'
  {
    UniqueAlways(h, i);
  }

  // ------------------------------------------------------------ one run after another

  /** All runs but the last have ended. */
  ghost predicate OneAtATime(s: Sys) {
    forall p :: 0 <= p < |s.procs| - 1 ==> s.procs[p].pc.Halted?
  }

  ghost predicate IsSequential(h: seq<Sys>) {
    IsHistory(h) && forall i :: 0 <= i < |h| ==> OneAtATime(h[i])
  }

  /** Runs one after another never overlap, so they make no second release. */
  lemma SequentialRunsNeverOverlap(h: seq<Sys>, i: nat)
    requires IsSequential(h)
    ensures NeverOverlaps(h, i)
  {
    forall j | 0 <= j < i && j < |h|
      ensures NoOverlap(h[j])
    {
      assert OneAtATime(h[j]);
    }
  }

  // ------------------------------------------------------------ and another one

  lemma {:induction false} AgreedTagsAreNoConflict(w: World, plan: Plan, own: seq<Member>)
    requires NoConflict(w, plan) && SameCommits(w, own, plan.members)
    ensures NoConflict(TagAll(w, plan.tag, own).0, plan)
  {
    if own != [] {
      var front, m := own[..|own| - 1], own[|own| - 1];
      AgreedTagsAreNoConflict(w, plan, front);
      TagAllTouches(w, plan.tag, front);
      var w1 := TagAll(w, plan.tag, front).0;
      CleanTagTagsOnly(w1, plan.tag, m);
      if TagAll(w, plan.tag, front).1 {
        assert m in own;
        AgreedTagIsNoConflict(w1, CleanTag(w1, plan.tag, m).0, plan, m);
      }
    }
  }

  /**
   * The other half: once two runs of one release that agree on their commits have both found none and
   * neither has begun to tag, nothing in the protocol keeps both from being made visible, whatever the
   * members and the assets, as long as no tag and no asset is in their way.
   */
  lemma OverlappingRunsCanBothRelease(h: seq<Sys>, p: nat, q: nat) returns (h': seq<Sys>)
    requires IsHistory(h) && Overlap(Last(h), p, q)
    requires BeforeFirstTag(Last(h).procs[p].pc) && CanAttach(Last(h).w, Last(h).procs[p].pc)
    requires BeforeFirstTag(Last(h).procs[q].pc) && CanAttach(Last(h).w, Last(h).procs[q].pc)
    requires NoConflict(Last(h).w, Last(h).procs[p].plan) && NoConflict(Last(h).w, Last(h).procs[q].plan)
    requires SameCommits(Last(h).w, Last(h).procs[p].plan.members, Last(h).procs[q].plan.members)
    ensures IsHistory(h') && h <= h' && !UniqueVisible(Last(h').w)
    ensures |Last(h').procs| == |Last(h).procs|
    ensures forall r :: 0 <= r < |Last(h).procs| ==> Last(h').procs[r].plan == Last(h).procs[r].plan
  {
    var P, Q := Last(h).procs[p].plan, Last(h).procs[q].plan;
    var first, id := GoesOnToRelease(h, p);
    AgreedTagsAreNoConflict(Last(h).w, Q, P.members);
    ClearLooksAtTags(TagAll(Last(h).w, Q.tag, P.members).0, Last(first).w, Q);
    OverwritesStays(h, first);
    assert Last(first).procs[q] == Last(h).procs[q];
    var second, id' := GoesOnToRelease(first, q);
    h' := second;
    TwoOwnReleases(second, p, id, q, id');
  }

  lemma TwoOwnReleases(h: seq<Sys>, p: nat, id: nat, q: nat, id': nat)
    requires IsAt(h, p, Halted(Published)) && IsAt(h, q, Halted(Published)) && p != q
    requires Last(h).procs[p].plan.home == Last(h).procs[q].plan.home && Last(h).procs[p].plan.tag == Last(h).procs[q].plan.tag
    requires Owns(Last(h).owners, p, id) && Owns(Last(h).owners, q, id')
    ensures !UniqueVisible(Last(h).w)
  {
    SuccessShowsItsRelease(h, |h| - 1, p, id);
    SuccessShowsItsRelease(h, |h| - 1, q, id');
    var a, b := if id < id' then id else id', if id < id' then id' else id;
    assert a < b && SameName(Last(h).w.releases[a], Last(h).w.releases[b]);
  }

  // ------------------------------------------------------------ from any world

  /** From every world, every plan that a run could release once two overlapping runs can release twice. */
  lemma EveryPlanCanBeReleasedTwice(w: World, plan: Plan) returns (h: seq<Sys>)
    requires NoConflict(w, plan) && !VisibleUnder(w, plan.home, plan.tag)
    ensures IsHistory(h) && h[0].w == w && !UniqueVisible(Last(h).w)
    ensures forall p :: 0 <= p < |Last(h).procs| ==> Last(h).procs[p].plan == plan
  {
    h := [Sys(w, [], seq(|w.releases|, _ => None))];
    var list, list';
    h, list := OneMoreLooks(h, plan);
    h, list' := OneMoreLooks(h, plan);
    PlanAgreesWithItself(w, plan);
    h := OverlappingRunsCanBothRelease(h, 0, 1);
  }
}
