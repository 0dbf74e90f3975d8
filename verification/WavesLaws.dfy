/** What every answer of Waves promises. */
module WavesLaws {
  import opened NeedsGraph
  import opened Selection
  import opened Text
  import opened Waves

  /** Waves gives up exactly when the needs among the named repos go round in a cycle. */
  lemma FailsExactlyOnACycle(names: seq<string>, needs: Needs, r: Outcome)
    requires IsOutcome(names, needs, r)
    ensures r.Cycle? <==> HasCycle(Elements(names), needs)
  {
    var D := Elements(names);
    CoreIsEmptyIffAcyclic(D, needs);
    if HasCycle(D, needs) {
      var c :| IsCycle(D, needs, c);
      assert Edge(needs, c[0], c[0 + 1]);
      assert c[0] in names && c[1] in names;
      if r.Ordered? {
        CycleLeadsToCycle(D, needs, c);
        LassoIsInCore(D, needs, c[0], |r.waves|);
      }
    }
  }

  /** The names it then lists are all those a cycle can be reached from, and no others. */
  lemma ReportsWhatLeadsToACycle(names: seq<string>, needs: Needs, r: Outcome)
    requires IsOutcome(names, needs, r) && r.Cycle?
    ensures Ascending(r.names)
    ensures forall name :: name in r.names <==> LeadsToCycle(Elements(names), needs, name)
  {
    forall name
      ensures name in r.names <==> LeadsToCycle(Elements(names), needs, name)
    {
      assert name in r.names <==> name in Elements(r.names);
      CoreIsWhatLeadsToCycle(Elements(names), needs, name);
    }
  }

  /** Equally: the greatest set of named repos each of which waits for another of the set. */
  lemma ReportsTheGreatestStuckSet(names: seq<string>, needs: Needs, r: Outcome, S: set<string>)
    requires IsOutcome(names, needs, r) && r.Cycle?
    ensures Stuck(Elements(r.names), needs) && Elements(r.names) <= Elements(names)
    ensures S <= Elements(names) && Stuck(S, needs) ==> S <= Elements(r.names)
  {
    var D := Elements(names);
    CoreIsStuck(D, needs);
    if S <= D && Stuck(S, needs) {
      StuckIsDeep(D, needs, S, |D|);
    }
  }

  /** There is never a choice: two runs over one configuration give the same answer. */
  lemma OneAnswer(names: seq<string>, needs: Needs, r: Outcome, r': Outcome)
    requires IsOutcome(names, needs, r) && IsOutcome(names, needs, r')
    ensures r == r'
  {
    FailsExactlyOnACycle(names, needs, r);
    FailsExactlyOnACycle(names, needs, r');
    if r.Cycle? {
      forall x
        ensures x in r.names <==> x in r'.names
      {
        assert x in r.names <==> x in Elements(r.names);
        assert x in r'.names <==> x in Elements(r'.names);
      }
      AscendingIsUnique(r.names, r'.names);
    } else if AnyEdge(names, needs) {
      SameLength(names, needs, r.waves, r'.waves);
      assert forall k :: 0 <= k < |r.waves| ==> r.waves[k] == r'.waves[k];
    } else {
      assert forall k :: 0 <= k < |r.waves| ==> r.waves[k] == r'.waves[k];
    }
  }

  /** A wave is never empty, so the layering ends at the first depth no chain reaches. */
  lemma LayeringLength(names: seq<string>, needs: Needs, waves: seq<seq<string>>, k: nat)
    requires IsLayering(names, needs, waves)
    requires k < |waves|
    ensures Deep(Elements(names), needs, k) != {}
  {
    SelectElements(names, Layer(Elements(names), needs, k));
    assert waves[k][0] in Elements(waves[k]);
    assert waves[k][0] in Layer(Elements(names), needs, k);
  }

  lemma SameLength(names: seq<string>, needs: Needs, w: seq<seq<string>>, w': seq<seq<string>>)
    requires IsLayering(names, needs, w) && Deep(Elements(names), needs, |w|) == {}
    requires IsLayering(names, needs, w') && Deep(Elements(names), needs, |w'|) == {}
    ensures |w| == |w'|
  {
    if |w| < |w'| { LayeringLength(names, needs, w', |w|); }
    if |w'| < |w| { LayeringLength(names, needs, w, |w'|); }
  }

  // ------------------------------------------------------------ what is in a wave

  /** With an edge, wave k is exactly the names whose longest chain of needs has k needs. */
  lemma WaveIsLongestChain(names: seq<string>, needs: Needs, waves: seq<seq<string>>, k: nat, name: string)
    requires IsOutcome(names, needs, Ordered(waves)) && AnyEdge(names, needs) && k < |waves|
    ensures name in waves[k] <==>
      HasChain(Elements(names), needs, name, k) && !HasChain(Elements(names), needs, name, k + 1)
  {
    var D := Elements(names);
    SelectElements(names, Layer(D, needs, k));
    assert name in waves[k] <==> name in Elements(waves[k]);
    DeepIsChain(D, needs, k, name);
    DeepIsChain(D, needs, k + 1, name);
    DeepAntitone(D, needs, 0, k);
  }

  lemma InWaveMeansNamed(names: seq<string>, needs: Needs, waves: seq<seq<string>>, k: nat, name: string)
    requires IsOutcome(names, needs, Ordered(waves)) && k < |waves| && name in waves[k]
    ensures name in names
    ensures AnyEdge(names, needs) ==> name in Layer(Elements(names), needs, k)
  {
    if AnyEdge(names, needs) {
      SelectElements(names, Layer(Elements(names), needs, k));
      assert name in Elements(waves[k]);
    }
  }

  /** Whatever a name needs, when that is named too, is in a strictly earlier wave. */
  lemma NeedsComeEarlier(names: seq<string>, needs: Needs, waves: seq<seq<string>>,
                         a: string, k: nat, b: string, j: nat)
    requires IsOutcome(names, needs, Ordered(waves))
    requires k < |waves| && a in waves[k] && j < |waves| && b in waves[j]
    requires Edge(needs, a, b)
    ensures j < k
  {
    var D := Elements(names);
    InWaveMeansNamed(names, needs, waves, k, a);
    InWaveMeansNamed(names, needs, waves, j, b);
    if k <= j {
      DeepAntitone(D, needs, k, j);
      assert Waits(needs, a, Deep(D, needs, k));
      assert false;
    }
  }

  /** So no wave holds two names one of which needs the other. */
  lemma WaveMembersAreIndependent(names: seq<string>, needs: Needs, waves: seq<seq<string>>, k: nat, a: string, b: string)
    requires IsOutcome(names, needs, Ordered(waves))
    requires k < |waves| && a in waves[k] && b in waves[k]
    ensures !Edge(needs, a, b)
  {
    if Edge(needs, a, b) { NeedsComeEarlier(names, needs, waves, a, k, b, k); }
  }

  /** Every named repo is in some wave. */
  lemma EveryNameIsPlaced(names: seq<string>, needs: Needs, waves: seq<seq<string>>, name: string) returns (k: nat)
    requires IsOutcome(names, needs, Ordered(waves)) && name in names
    ensures k < |waves| && name in waves[k]
  {
    if !AnyEdge(names, needs) {
      k :| 0 <= k < |names| && names[k] == name;
    } else {
      var D := Elements(names);
      k := 0;
      while name in Deep(D, needs, k + 1)
        invariant name in Deep(D, needs, k)
        invariant k < |waves|
        decreases |waves| - k
      {
        k := k + 1;
        if k >= |waves| { DeepAntitone(D, needs, |waves|, k); }
      }
      SelectElements(names, Layer(D, needs, k));
      assert name in Elements(waves[k]);
    }
  }

  // ------------------------------------------------------------ declared order

  lemma {:induction false} SelectIsSelected(s: seq<string>, keep: set<string>, P: string -> bool, f: string -> string)
    requires forall x :: P(x) <==> x in keep
    requires forall x :: f(x) == x
    ensures Select(s, keep) == Selected(s, P, f)
  {
    if s != [] { SelectIsSelected(s[..|s| - 1], keep, P, f); }
  }

  lemma SelectSelects(s: seq<string>, keep: set<string>) returns (at: seq<nat>)
    ensures |at| == |Select(s, keep)| && forall i :: 0 <= i < |at| ==> at[i] < |s| && Select(s, keep)[i] == s[at[i]]
    ensures forall i, j :: 0 <= i < j < |at| ==> at[i] < at[j]
    ensures forall p: nat :: p in at <==> p < |s| && s[p] in keep
  {
    var P, f := (x: string) => x in keep, (x: string) => x;
    SelectIsSelected(s, keep, P, f);
    at := SelectedSelects(s, P, f);
  }

  /**
   * A wave lists its names in declared order: entry i stands at position at[i] of the input, positions
   * rise, and with an edge they are all the positions at which names of the wave are declared.
   */
  lemma WaveKeepsDeclaredOrder(names: seq<string>, needs: Needs, waves: seq<seq<string>>, k: nat) returns (at: seq<nat>)
    requires IsOutcome(names, needs, Ordered(waves)) && k < |waves|
    ensures |at| == |waves[k]| && forall i :: 0 <= i < |at| ==> at[i] < |names| && waves[k][i] == names[at[i]]
    ensures forall i, j :: 0 <= i < j < |at| ==> at[i] < at[j]
    ensures AnyEdge(names, needs) ==> forall p: nat :: p < |names| && names[p] in waves[k] ==> p in at
    ensures !AnyEdge(names, needs) ==> at == [k]
  {
    if AnyEdge(names, needs) {
      var layer := Layer(Elements(names), needs, k);
      at := SelectSelects(names, layer);
      SelectElements(names, layer);
      forall p: nat | p < |names| && names[p] in waves[k]
        ensures p in at
      {
        assert names[p] in Elements(waves[k]);
      }
    } else {
      at := [k];
    }
  }

  // ------------------------------------------------------------ conservation

  lemma {:induction false} SelectCount(s: seq<string>, keep: set<string>, x: string)
    ensures multiset(Select(s, keep))[x] == if x in keep then multiset(s)[x] else 0
  {
    if s != [] {
      SelectCount(s[..|s| - 1], keep, x);
      assert s == s[..|s| - 1] + [s[|s| - 1]];
    }
  }

  lemma {:induction false} FlattenLayers(names: seq<string>, needs: Needs, waves: seq<seq<string>>, x: string)
    requires IsLayering(names, needs, waves)
    ensures multiset(Flatten(waves))[x] ==
      if x in Elements(names) - Deep(Elements(names), needs, |waves|) then multiset(names)[x] else 0
  {
    if waves != [] {
      var k := |waves| - 1;
      FlattenLayers(names, needs, waves[..k], x);
      SelectCount(names, Layer(Elements(names), needs, k), x);
      DeepShrinks(Elements(names), needs, k);
    }
  }

  lemma {:induction false} FlattenSingles(names: seq<string>, waves: seq<seq<string>>)
    requires |waves| == |names| && forall i :: 0 <= i < |names| ==> waves[i] == [names[i]]
    ensures Flatten(waves) == names
  {
    if names != [] {
      var k := |names| - 1;
      FlattenSingles(names[..k], waves[..k]);
      assert names == names[..k] + [names[k]];
    }
  }

  /** The waves together list every entry exactly as often as the input does. */
  lemma NothingLostNothingAdded(names: seq<string>, needs: Needs, waves: seq<seq<string>>)
    requires IsOutcome(names, needs, Ordered(waves))
    ensures multiset(Flatten(waves)) == multiset(names)
    ensures !AnyEdge(names, needs) ==> Flatten(waves) == names
  {
    if AnyEdge(names, needs) {
      forall x
        ensures multiset(Flatten(waves))[x] == multiset(names)[x]
      {
        FlattenLayers(names, needs, waves, x);
        assert x in names <==> multiset(names)[x] > 0;
      }
    } else {
      FlattenSingles(names, waves);
    }
  }

  // ------------------------------------------------------------ minimality

  /** f gives every named repo a slot below h, after the slots of everything it needs. */
  ghost predicate FitsIn(D: set<string>, needs: Needs, f: map<string, nat>, h: nat) {
    && (forall a :: a in D ==> a in f && f[a] < h)
    && (forall a, b :: a in D && b in D && Edge(needs, a, b) ==> f[a] > f[b])
  }

  lemma {:induction false} DeepNeedsRoom(D: set<string>, needs: Needs, f: map<string, nat>, h: nat, k: nat, a: string)
    requires FitsIn(D, needs, f, h) && a in Deep(D, needs, k)
    ensures a in D && f[a] >= k
  {
    DeepAntitone(D, needs, 0, k);
    if k > 0 {
      assert Waits(needs, a, Deep(D, needs, k - 1));
      var b :| b in Deep(D, needs, k - 1) && Edge(needs, a, b);
      DeepNeedsRoom(D, needs, f, h, k - 1, b);
    }
  }

  /** With an edge, no order that respects the needs puts a name in an earlier slot. */
  lemma NoNameMovesEarlier(names: seq<string>, needs: Needs, waves: seq<seq<string>>,
                           f: map<string, nat>, h: nat, k: nat, name: string)
    requires IsOutcome(names, needs, Ordered(waves)) && AnyEdge(names, needs)
    requires FitsIn(Elements(names), needs, f, h)
    requires k < |waves| && name in waves[k]
    ensures name in f && k <= f[name]
  {
    InWaveMeansNamed(names, needs, waves, k, name);
    DeepNeedsRoom(Elements(names), needs, f, h, k, name);
  }

  /** The number of waves is the least possible exactly when an edge applies or there is at most one entry. */
  lemma FewestWavesExactly(names: seq<string>, needs: Needs, waves: seq<seq<string>>)
    requires IsOutcome(names, needs, Ordered(waves))
    ensures (forall f, h :: FitsIn(Elements(names), needs, f, h) ==> |waves| <= h) <==>
      AnyEdge(names, needs) || |names| <= 1
  {
    var D := Elements(names);
    if AnyEdge(names, needs) || |names| == 1 {
      forall f, h | FitsIn(D, needs, f, h)
        ensures |waves| <= h
      {
        if |names| == 1 {
          assert names[0] in D;
        }
        if AnyEdge(names, needs) && waves != [] {
          var last := |waves| - 1;
          assert waves[last] != [];
          NoNameMovesEarlier(names, needs, waves, f, h, last, waves[last][0]);
          InWaveMeansNamed(names, needs, waves, last, waves[last][0]);
        }
      }
    } else if |names| > 1 {
      var f: map<string, nat> := map a | a in D :: 0;
      assert FitsIn(D, needs, f, 1);
    }
  }

  // ------------------------------------------------------------ what Waves looks at

  /** The needs with everything dropped that is not an edge between named repos. */
  function Restricted(names: seq<string>, needs: Needs): Needs {
    map a | a in needs.Keys && a in names :: Keep(needs[a], a, names)
  }

  function Keep(list: seq<string>, self: string, names: seq<string>): seq<string> {
    if list == [] then []
    else
      var rest := Keep(list[1..], self, names);
      if list[0] != self && list[0] in names then [list[0]] + rest else rest
  }

  lemma {:induction false} KeepKeeps(list: seq<string>, self: string, names: seq<string>, b: string)
    ensures b in Keep(list, self, names) <==> b in list && b != self && b in names
  {
    if list != [] { KeepKeeps(list[1..], self, names, b); }
  }

  ghost predicate SameEdges(names: seq<string>, needs: Needs, needs': Needs) {
    forall a, b :: a in names && b in names ==> (Edge(needs, a, b) <==> Edge(needs', a, b))
  }

  /** Waves reads nothing from the needs but which named repo needs which other named repo. */
  lemma OnlyEdgesMatter(names: seq<string>, needs: Needs, needs': Needs, r: Outcome)
    requires SameEdges(names, needs, needs')
    requires IsOutcome(names, needs, r)
    ensures IsOutcome(names, needs', r)
  {
    var D := Elements(names);
    forall k: nat
      ensures Deep(D, needs, k) == Deep(D, needs', k)
    {
      DeepDependsOnEdges(D, needs, needs', k);
    }
    assert AnyEdge(names, needs) <==> AnyEdge(names, needs');
  }

  /** Needs outside the target and needs on oneself change nothing. */
  lemma OnlyInTargetEdgesMatter(names: seq<string>, needs: Needs, r: Outcome)
    ensures IsOutcome(names, needs, r) <==> IsOutcome(names, Restricted(names, needs), r)
  {
    forall a, b | a in names && b in names
      ensures Edge(needs, a, b) <==> Edge(Restricted(names, needs), a, b)
    {
      if a in needs { KeepKeeps(needs[a], a, names, b); }
    }
    if IsOutcome(names, needs, r) { OnlyEdgesMatter(names, needs, Restricted(names, needs), r); }
    if IsOutcome(names, Restricted(names, needs), r) { OnlyEdgesMatter(names, Restricted(names, needs), needs, r); }
  }

  /** Reordering or repeating the entries of a needs list changes nothing. */
  lemma ListOrderDoesNotMatter(names: seq<string>, needs: Needs, needs': Needs, r: Outcome)
    requires forall a :: Elements(At(needs, a)) == Elements(At(needs', a))
    requires IsOutcome(names, needs, r)
    ensures IsOutcome(names, needs', r)
  {
    forall a, b | a in names && b in names
      ensures Edge(needs, a, b) <==> Edge(needs', a, b)
    {
      assert b in At(needs, a) <==> b in Elements(At(needs, a));
      assert b in At(needs', a) <==> b in Elements(At(needs', a));
    }
    OnlyEdgesMatter(names, needs, needs', r);
  }

  /** Reordering the names, when an edge applies, reorders each wave and nothing else. */
  lemma ReorderingStaysInsideWaves(names: seq<string>, names': seq<string>, needs: Needs, r: Outcome, r': Outcome)
    requires multiset(names) == multiset(names')
    requires AnyEdge(names, needs)
    requires IsOutcome(names, needs, r) && IsOutcome(names', needs, r')
    ensures r.Cycle? <==> r'.Cycle?
    ensures r.Cycle? ==> r == r'
    ensures r.Ordered? ==> |r.waves| == |r'.waves|
    ensures r.Ordered? ==> forall k :: 0 <= k < |r.waves| ==> multiset(r.waves[k]) == multiset(r'.waves[k])
  {
    SameElements(names, names');
    assert Elements(names) == Elements(names');
    FailsExactlyOnACycle(names, needs, r);
    FailsExactlyOnACycle(names', needs, r');
    assert AnyEdge(names', needs);
    if r.Cycle? {
      assert IsOutcome(names, needs, r');
      OneAnswer(names, needs, r, r');
    } else {
      ReorderedLength(names, names', needs, r.waves, r'.waves);
      forall k | 0 <= k < |r.waves|
        ensures multiset(r.waves[k]) == multiset(r'.waves[k])
      {
        ReorderedWave(names, names', Layer(Elements(names), needs, k));
      }
    }
  }

  lemma SameElements(s: seq<string>, s': seq<string>)
    requires multiset(s) == multiset(s')
    ensures forall x :: x in s <==> x in s'
  {
    forall x
      ensures x in s <==> x in s'
    {
      assert x in s <==> x in multiset(s);
      assert x in s' <==> x in multiset(s');
    }
  }

  lemma ReorderedWave(s: seq<string>, s': seq<string>, keep: set<string>)
    requires multiset(s) == multiset(s')
    ensures multiset(Select(s, keep)) == multiset(Select(s', keep))
  {
    forall x
      ensures multiset(Select(s, keep))[x] == multiset(Select(s', keep))[x]
    {
      SelectCount(s, keep, x);
      SelectCount(s', keep, x);
    }
  }

  lemma ReorderedLength(names: seq<string>, names': seq<string>, needs: Needs, w: seq<seq<string>>, w': seq<seq<string>>)
    requires Elements(names) == Elements(names')
    requires IsLayering(names, needs, w) && Deep(Elements(names), needs, |w|) == {}
    requires IsLayering(names', needs, w') && Deep(Elements(names), needs, |w'|) == {}
    ensures |w| == |w'|
  {
    if |w| < |w'| { LayeringLength(names', needs, w', |w|); }
    if |w'| < |w| { LayeringLength(names, needs, w, |w'|); }
  }

  /** What can be ordered stays orderable when names are left out, whatever names are added that need nothing. */
  lemma OrderedIsInherited(names: seq<string>, needs: Needs, r: Outcome, names': seq<string>, needs': Needs, r': Outcome)
    requires IsOutcome(names, needs, r) && r.Ordered?
    requires forall a, b :: a in names' && b in names' && Edge(needs', a, b) ==> a in names && Edge(needs, a, b)
    requires IsOutcome(names', needs', r')
    ensures r'.Ordered?
  {
    FailsExactlyOnACycle(names, needs, r);
    SubgraphKeepsAcyclic(Elements(names), needs, Elements(names'), needs');
    FailsExactlyOnACycle(names', needs', r');
  }
}
