/**
 * What publish and Tag come to when no call fails and nobody interferes, as functions on worlds.
 *
 * CleanTag is Tag on one member, TagAll on a list of members, AttachAll the uploads, Unsettled what
 * preflight finds, and CleanRun the whole of a run. The laws say what each changes and what it leaves
 * alone, and exactly when it succeeds.
 */
module ProtocolClean {
  import opened Assets
  import opened Protocol
  import opened ProtocolSafety
  import opened Text

  /** The checkout has the tag, one way or the other. */
  function TaggedHere(w: World, tag: string, m: Member): World {
    if LocalOf(w, tag, m).None? then LocallyTagged(w, tag, m) else w
  }

  /** Tag, when no call fails and nobody interferes. */
  function CleanTag(w: World, tag: string, m: Member): (r: (World, bool))
    ensures r.0.releases == w.releases
  {
    match RemoteOf(w, tag, m)
    case Some(at) => (w, at == m.sha)
    case None =>
      if LocalOf(w, tag, m).Some? && LocalOf(w, tag, m).value != m.sha then (w, false)
      else
        var w1 := TaggedHere(w, tag, m);
        (if m.dir in w.origin then Pushed(w1, tag, m) else w1, true)
  }

  /** Tagging a list of members in order, up to the first that is refused. */
  function TagAll(w: World, tag: string, ms: seq<Member>): (r: (World, bool))
    ensures r.0.releases == w.releases
  {
    if ms == [] then (w, true)
    else
      var front := TagAll(w, tag, ms[..|ms| - 1]);
      if front.1 then CleanTag(front.0, tag, ms[|ms| - 1]) else front
  }

  /** The members not yet on their remote; None when a remote has the tag at another commit. */
  function Unsettled(w: World, tag: string, ms: seq<Member>): Option<seq<Member>> {
    if ms == [] then Some([])
    else
      var front, m := Unsettled(w, tag, ms[..|ms| - 1]), ms[|ms| - 1];
      if front.None? then None
      else match RemoteOf(w, tag, m)
        case None => Some(front.value + [m])
        case Some(at) => if at == m.sha then front else None
  }

  /** Attaching assets in order, up to the first the store refuses. */
  function AttachAll(w: World, id: nat, assets: seq<Staged>): (r: (World, bool))
    requires id < |w.releases|
    ensures |r.0.releases| == |w.releases|
  {
    if assets == [] then (w, true)
    else
      var front, last := AttachAll(w, id, assets[..|assets| - 1]), assets[|assets| - 1];
      if front.1 && Accepts(front.0, id, last) then (Attached(front.0, id, last), true) else (front.0, false)
  }

  /** The draft and every asset on it. */
  function Prepared(w: World, plan: Plan, assets: seq<Staged>): (World, bool) {
    AttachAll(Drafted(w, plan.home, plan.tag), |w.releases|, assets)
  }

  /** A whole run that meets no failure and no other run, with these assets staged. */
  function CleanRun(w: World, plan: Plan, assets: seq<Staged>): (World, Result) {
    var pending := Unsettled(w, plan.tag, plan.members);
    var found := VisibleUnder(w, plan.home, plan.tag);
    if pending.None? then (w, Refused)
    else if plan.members != [] && pending.value == [] && found then (w, Converged)
    else if found then
      var tagged := TagAll(w, plan.tag, pending.value);
      (tagged.0, if tagged.1 then Published else Broken)
    else
      var prepared := Prepared(w, plan, assets);
      if !prepared.1 then (prepared.0, Broken)
      else
        var tagged := TagAll(prepared.0, plan.tag, pending.value);
        if tagged.1 then (Shown(tagged.0, |w.releases|), Published) else (tagged.0, Broken)
  }

  /** Two members that are the same place to tag: one checkout, or checkouts of one remote. */
  predicate SamePlace(w: World, a: Member, b: Member) {
    a.dir == b.dir || (a.dir in w.origin && b.dir in w.origin && w.origin[a.dir] == w.origin[b.dir])
  }

  /**
   * Nothing stands in the way of member n: no other commit under the tag on its remote, or, when the
   * remote has none, in its checkout - unless an earlier member will have tagged that remote by then;
   * and no earlier member wants another commit in the same place.
   */
  predicate Clear(w: World, tag: string, ms: seq<Member>, n: nat)
    requires n < |ms|
  {
    var m := ms[n];
    && (forall j :: 0 <= j < n && SamePlace(w, ms[j], m) ==> ms[j].sha == m.sha)
    && match RemoteOf(w, tag, m)
       case Some(at) => at == m.sha
       case None =>
         || LocalOf(w, tag, m).None? || LocalOf(w, tag, m).value == m.sha
         || (m.dir in w.origin && exists j :: 0 <= j < n && SamePlace(w, ms[j], m))
  }

  predicate NoConflict(w: World, plan: Plan) {
    forall n :: 0 <= n < |plan.members| ==> Clear(w, plan.tag, plan.members, n)
  }

  /** Under this tag only places of m change, and they change to its commit. */
  ghost predicate TagsOnly(w: World, w': World, tag: string, m: Member) {
    && w'.origin == w.origin
    && (forall o :: !SamePlace(w, m, o) ==> SameTags(w, w', tag, o))
    && (forall o :: RemoteOf(w', tag, o) in {RemoteOf(w, tag, o), Some(m.sha)})
    && (forall o :: LocalOf(w', tag, o) in {LocalOf(w, tag, o), Some(m.sha)})
  }

  ghost predicate SameTags(w: World, w': World, tag: string, o: Member) {
    RemoteOf(w', tag, o) == RemoteOf(w, tag, o) && LocalOf(w', tag, o) == LocalOf(w, tag, o)
  }

  lemma CleanTagGrows(w: World, tag: string, m: Member)
    ensures Grows(w, CleanTag(w, tag, m).0)
    ensures CleanTag(w, tag, m).1 ==> Carried(CleanTag(w, tag, m).0, tag, m)
  {
    GrowsNot(w);
    if CleanTag(w, tag, m).1 && RemoteOf(w, tag, m).None? {
      var w1 := TaggedHere(w, tag, m);
      if LocalOf(w, tag, m).None? { LocallyTaggedGrows(w, tag, m); }
      if m.dir in w.origin {
        PushedGrows(w1, tag, m);
        GrowsOn(w, w1, Pushed(w1, tag, m));
      }
    }
  }

  lemma LocallyTaggedGrows(w: World, tag: string, m: Member)
    requires LocalOf(w, tag, m).None?
    ensures Grows(w, LocallyTagged(w, tag, m))
  {
  }

  lemma PushedGrows(w: World, tag: string, m: Member)
    requires RemoteOf(w, tag, m).None? && m.dir in w.origin && (m.dir, tag) in w.local
    ensures Grows(w, Pushed(w, tag, m))
  {
  }

  lemma CleanTagTagsOnly(w: World, tag: string, m: Member)
    ensures TagsOnly(w, CleanTag(w, tag, m).0, tag, m)
  {
    if CleanTag(w, tag, m).1 && RemoteOf(w, tag, m).None? {
      var w1 := TaggedHere(w, tag, m);
      TaggedHereOnly(w, tag, m);
      if m.dir in w.origin {
        PushedOnly(w1, tag, m);
        OnlyTwice(w, w1, Pushed(w1, tag, m), tag, m);
      }
    }
  }

  lemma TaggedHereOnly(w: World, tag: string, m: Member)
    ensures TagsOnly(w, TaggedHere(w, tag, m), tag, m)
  {
  }

  lemma PushedOnly(w: World, tag: string, m: Member)
    requires m.dir in w.origin && LocalOf(w, tag, m) == Some(m.sha)
    ensures TagsOnly(w, Pushed(w, tag, m), tag, m)
  {
  }

  lemma OnlyTwice(w: World, w1: World, w2: World, tag: string, m: Member)
    requires TagsOnly(w, w1, tag, m) && TagsOnly(w1, w2, tag, m)
    ensures TagsOnly(w, w2, tag, m)
  {
    forall o | !SamePlace(w, m, o)
      ensures SameTags(w, w2, tag, o)
    {
      assert SameTags(w, w1, tag, o) && SameTags(w1, w2, tag, o);
    }
  }

  /** Tagging once more what is tagged writes nothing. */
  lemma TagTwiceIsTagOnce(w: World, tag: string, m: Member)
    requires CleanTag(w, tag, m).1
    ensures CleanTag(CleanTag(w, tag, m).0, tag, m) == (CleanTag(w, tag, m).0, true)
  {
  }

  lemma {:induction false} TagAllGrows(w: World, tag: string, ms: seq<Member>)
    ensures Grows(w, TagAll(w, tag, ms).0)
    ensures TagAll(w, tag, ms).1 ==> forall m :: m in ms ==> Carried(TagAll(w, tag, ms).0, tag, m)
  {
    if ms == [] {
      GrowsNot(w);
    } else {
      var rest, last := ms[..|ms| - 1], ms[|ms| - 1];
      var w1, w2 := TagAll(w, tag, rest).0, TagAll(w, tag, ms).0;
      TagAllGrows(w, tag, rest);
      if TagAll(w, tag, rest).1 {
        CleanTagGrows(w1, tag, last);
        GrowsOn(w, w1, w2);
        InFrontOrLast(ms);
        if TagAll(w, tag, ms).1 { CarriedStill(w1, w2, tag, rest); }
      }
    }
  }

  lemma CarriedStill(w: World, w': World, tag: string, ms: seq<Member>)
    requires Grows(w, w') && forall m :: m in ms ==> Carried(w, tag, m)
    ensures forall m :: m in ms ==> Carried(w', tag, m)
  {
    forall m | m in ms
      ensures Carried(w', tag, m)
    {
      CarriedStays(w, w', tag, m);
    }
  }

  ghost predicate Untouched(w: World, ms: seq<Member>, o: Member) {
    forall m :: m in ms ==> !SamePlace(w, m, o)
  }

  lemma {:induction false} TagAllTouches(w: World, tag: string, ms: seq<Member>)
    ensures TagAll(w, tag, ms).0.origin == w.origin
    ensures forall o :: Untouched(w, ms, o) ==> SameTags(w, TagAll(w, tag, ms).0, tag, o)
  {
    if ms != [] {
      var rest, last := ms[..|ms| - 1], ms[|ms| - 1];
      TagAllTouches(w, tag, rest);
      CleanTagTagsOnly(TagAll(w, tag, rest).0, tag, last);
      forall o | Untouched(w, ms, o)
        ensures SameTags(w, TagAll(w, tag, ms).0, tag, o)
      {
        InFrontOrLast(ms);
        assert Untouched(w, rest, o) && !SamePlace(w, last, o);
      }
    }
  }

  /** Once the members before it are tagged, the next one can be exactly when it is clear. */
  lemma TagsWhenClear(w: World, w1: World, tag: string, ms: seq<Member>, n: nat)
    requires n < |ms|
    requires Grows(w, w1) && forall j :: 0 <= j < n ==> Carried(w1, tag, ms[j])
    requires (forall j :: 0 <= j < n ==> !SamePlace(w, ms[j], ms[n])) ==> SameTags(w, w1, tag, ms[n])
    ensures CleanTag(w1, tag, ms[n]).1 <==> Clear(w, tag, ms, n)
  {
    var m := ms[n];
    if j: nat :| j < n && SamePlace(w, ms[j], m) {
      assert Carried(w1, tag, ms[j]);
      if m.dir in w.origin {
        assert RemoteOf(w1, tag, m) == Some(ms[j].sha);
      } else {
        assert LocalOf(w1, tag, m) == Some(ms[j].sha);
      }
    }
  }

  lemma {:induction false} TagAllWhenClear(w: World, tag: string, ms: seq<Member>, n: nat)
    requires n <= |ms|
    ensures TagAll(w, tag, ms[..n]).1 <==> forall i :: 0 <= i < n ==> Clear(w, tag, ms, i)
  {
    if n > 0 {
      var front := ms[..n - 1];
      TagAllWhenClear(w, tag, ms, n - 1);
      assert ms[..n][..n - 1] == front;
      var w1 := TagAll(w, tag, front).0;
      TagAllGrows(w, tag, front);
      TagAllTouches(w, tag, front);
      if TagAll(w, tag, front).1 {
        forall j | 0 <= j < n - 1
          ensures Carried(w1, tag, ms[j])
        {
          assert ms[j] in front;
        }
        if forall j :: 0 <= j < n - 1 ==> !SamePlace(w, ms[j], ms[n - 1]) { assert Untouched(w, front, ms[n - 1]); }
        TagsWhenClear(w, w1, tag, ms, n - 1);
      }
    }
  }

  /** pending is ms without some members that are on their remote. */
  ghost predicate LeavesOut(w: World, tag: string, ms: seq<Member>, pending: seq<Member>) {
    if ms == [] then pending == []
    else
      var front, m := ms[..|ms| - 1], ms[|ms| - 1];
      || (pending != [] && pending[|pending| - 1] == m && LeavesOut(w, tag, front, pending[..|pending| - 1]))
      || (RemoteOf(w, tag, m) == Some(m.sha) && LeavesOut(w, tag, front, pending))
  }

  /** The members preflight passes over are those that Tag would leave alone: skipping them changes nothing. */
  lemma {:induction false} SettledAreSkipped(w: World, w1: World, tag: string, ms: seq<Member>, pending: seq<Member>)
    requires Grows(w, w1) && LeavesOut(w, tag, ms, pending)
    ensures TagAll(w1, tag, pending) == TagAll(w1, tag, ms)
  {
    if ms != [] {
      var front, m := ms[..|ms| - 1], ms[|ms| - 1];
      if pending != [] && pending[|pending| - 1] == m && LeavesOut(w, tag, front, pending[..|pending| - 1]) {
        SettledAreSkipped(w, w1, tag, front, pending[..|pending| - 1]);
      } else {
        SettledAreSkipped(w, w1, tag, front, pending);
        TagAllGrows(w1, tag, front);
        assert RemoteOf(w1, tag, m) == Some(m.sha);
        CarriedStays(w1, TagAll(w1, tag, front).0, tag, m);
      }
    }
  }

  lemma {:induction false} UnsettledLeavesOut(w: World, tag: string, ms: seq<Member>)
    requires Unsettled(w, tag, ms).Some?
    ensures LeavesOut(w, tag, ms, Unsettled(w, tag, ms).value)
  {
    if ms != [] {
      UnsettledLeavesOut(w, tag, ms[..|ms| - 1]);
      var pending, m := Unsettled(w, tag, ms[..|ms| - 1]).value, ms[|ms| - 1];
      assert (pending + [m])[..|pending|] == pending;
    }
  }

  lemma {:induction false} UnsettledWhen(w: World, tag: string, ms: seq<Member>)
    ensures Unsettled(w, tag, ms).Some? <==>
      forall m :: m in ms ==> RemoteOf(w, tag, m).None? || RemoteOf(w, tag, m) == Some(m.sha)
    ensures Unsettled(w, tag, ms).Some? ==>
      forall m :: m in ms ==> m in Unsettled(w, tag, ms).value || RemoteOf(w, tag, m) == Some(m.sha)
  {
    if ms != [] {
      UnsettledWhen(w, tag, ms[..|ms| - 1]);
      InFrontOrLast(ms);
    }
  }

  lemma AttachedGrows(w: World, id: nat, a: Staged)
    requires id < |w.releases| && Accepts(w, id, a)
    ensures Grows(w, Attached(w, id, a))
  {
  }

  lemma {:induction false} AttachAllFrame(w: World, id: nat, assets: seq<Staged>)
    requires id < |w.releases|
    ensures Grows(w, AttachAll(w, id, assets).0)
    ensures AttachAll(w, id, assets).0.remote == w.remote && AttachAll(w, id, assets).0.local == w.local
    ensures AttachAll(w, id, assets).0.releases[id].draft == w.releases[id].draft
  {
    if assets != [] {
      var front, last := assets[..|assets| - 1], assets[|assets| - 1];
      AttachAllFrame(w, id, front);
      var w1 := AttachAll(w, id, front).0;
      if AttachAll(w, id, front).1 && Accepts(w1, id, last) {
        AttachedGrows(w1, id, last);
        GrowsOn(w, w1, Attached(w1, id, last));
      }
    } else {
      GrowsNot(w);
    }
  }

  /** A refusal ends the uploads. */
  lemma {:induction false} AttachAllStops(w: World, id: nat, assets: seq<Staged>, k: nat)
    requires id < |w.releases| && k <= |assets| && !AttachAll(w, id, assets[..k]).1
    ensures AttachAll(w, id, assets) == AttachAll(w, id, assets[..k])
    decreases |assets|
  {
    if k < |assets| {
      var front := assets[..|assets| - 1];
      assert front[..k] == assets[..k];
      AttachAllStops(w, id, front, k);
    } else {
      assert assets[..k] == assets;
    }
  }

  lemma DistinctInFront(assets: seq<Staged>)
    requires assets != []
    ensures DistinctNames(assets) <==>
      DistinctNames(assets[..|assets| - 1]) && assets[|assets| - 1].name !in Named(assets[..|assets| - 1])
  {
    var front, last := assets[..|assets| - 1], assets[|assets| - 1];
    NamedHasAll(front);
    if DistinctNames(assets) {
      forall a | a in front
        ensures a.name != last.name
      {
        var i :| 0 <= i < |front| && front[i] == a;
        assert assets[i] == a;
      }
    }
    forall i | 0 <= i < |front|
      ensures assets[i] == front[i] && front[i] in front
    {
    }
  }

  /** The store takes all assets exactly when it may, and then the release is made of them. */
  lemma {:induction false} AttachAllExactly(w: World, id: nat, assets: seq<Staged>)
    requires id < |w.releases| && w.releases[id].assets == map[]
    ensures AttachAll(w, id, assets).1 <==> Attachable(w, assets)
    ensures AttachAll(w, id, assets).1 ==>
      IsMadeOf(AttachAll(w, id, assets).0, AttachAll(w, id, assets).0.releases[id], assets)
  {
    AttachAllFrame(w, id, assets);
    if assets != [] {
      AttachAllFrame(w, id, assets[..|assets| - 1]);
      AttachAllExactly(w, id, assets[..|assets| - 1]);
      DistinctInFront(assets);
    }
  }

  ghost predicate AllTagsAlike(w: World, w1: World) {
    w1.origin == w.origin && w1.remote == w.remote && w1.local == w.local
  }

  lemma TaggedHereAlike(w: World, w1: World, tag: string, m: Member)
    requires AllTagsAlike(w, w1)
    ensures AllTagsAlike(TaggedHere(w, tag, m), TaggedHere(w1, tag, m))
  {
  }

  lemma PushedAlike(w: World, w1: World, tag: string, m: Member)
    requires AllTagsAlike(w, w1) && m.dir in w.origin && (m.dir, tag) in w.local
    ensures AllTagsAlike(Pushed(w, tag, m), Pushed(w1, tag, m))
  {
  }

  lemma CleanTagLooksAtTags(w: World, w1: World, tag: string, m: Member)
    requires AllTagsAlike(w, w1)
    ensures CleanTag(w1, tag, m).1 == CleanTag(w, tag, m).1
    ensures AllTagsAlike(CleanTag(w, tag, m).0, CleanTag(w1, tag, m).0)
  {
    assert RemoteOf(w1, tag, m) == RemoteOf(w, tag, m) && LocalOf(w1, tag, m) == LocalOf(w, tag, m);
    if CleanTag(w, tag, m).1 && RemoteOf(w, tag, m).None? {
      TaggedHereAlike(w, w1, tag, m);
      if m.dir in w.origin { PushedAlike(TaggedHere(w, tag, m), TaggedHere(w1, tag, m), tag, m); }
    }
  }

  lemma {:induction false} TagAllLooksAtTags(w: World, w1: World, tag: string, ms: seq<Member>)
    requires AllTagsAlike(w, w1)
    ensures TagAll(w1, tag, ms).1 == TagAll(w, tag, ms).1
    ensures AllTagsAlike(TagAll(w, tag, ms).0, TagAll(w1, tag, ms).0)
  {
    if ms != [] {
      var rest := ms[..|ms| - 1];
      TagAllLooksAtTags(w, w1, tag, rest);
      CleanTagLooksAtTags(TagAll(w, tag, rest).0, TagAll(w1, tag, rest).0, tag, ms[|ms| - 1]);
    }
  }

  lemma CarriedAlike(w: World, w1: World, tag: string, m: Member)
    requires AllTagsAlike(w, w1) && Carried(w, tag, m)
    ensures Carried(w1, tag, m)
  {
  }

  lemma OneMoreTagged(w: World, w1: World, tag: string, ms: seq<Member>, k: nat)
    requires k < |ms| && TagAll(w, tag, ms[..k]) == (w1, true)
    ensures TagAll(w, tag, ms[..k + 1]) == CleanTag(w1, tag, ms[k])
  {
    assert ms[..k + 1][..k] == ms[..k];
  }

  /** tagged is as much of the list as can be tagged: the member after it is refused. */
  ghost predicate StopsAfter(w: World, tag: string, ms: seq<Member>, tagged: seq<Member>) {
    && |tagged| < |ms| && tagged == ms[..|tagged|]
    && TagAll(w, tag, tagged).1 && !CleanTag(TagAll(w, tag, tagged).0, tag, ms[|tagged|]).1
  }

  lemma StopsAlike(w: World, w1: World, tag: string, ms: seq<Member>, tagged: seq<Member>)
    requires AllTagsAlike(w, w1) && StopsAfter(w, tag, ms, tagged)
    ensures StopsAfter(w1, tag, ms, tagged)
  {
    TagAllLooksAtTags(w, w1, tag, tagged);
    CleanTagLooksAtTags(TagAll(w, tag, tagged).0, TagAll(w1, tag, tagged).0, tag, ms[|tagged|]);
  }

  /** A refusal ends the tagging: what comes later in the list plays no part. */
  lemma {:induction false} TagAllStops(w: World, tag: string, ms: seq<Member>, k: nat)
    requires k <= |ms| && !TagAll(w, tag, ms[..k]).1
    ensures TagAll(w, tag, ms) == TagAll(w, tag, ms[..k])
    decreases |ms|
  {
    if k < |ms| {
      var front := ms[..|ms| - 1];
      assert front[..k] == ms[..k];
      TagAllStops(w, tag, front, k);
    } else {
      assert ms[..k] == ms;
    }
  }

  lemma ClearLooksAtTags(w: World, w1: World, plan: Plan)
    requires AllTagsAlike(w, w1)
    ensures NoConflict(w, plan) <==> NoConflict(w1, plan)
  {
    forall n | 0 <= n < |plan.members|
      ensures Clear(w, plan.tag, plan.members, n) <==> Clear(w1, plan.tag, plan.members, n)
    {
    }
  }
}
