/** Picking entries from a list without changing their order. */
module Selection {
  import opened Text

  /** at lists, in order, all positions of s whose entries are to be kept. */
  ghost predicate IsPick<T>(at: seq<nat>, s: seq<T>, keep: T -> bool) {
    && (forall i, j :: 0 <= i < j < |at| ==> at[i] < at[j])
    && (forall p: nat :: p in at <==> p < |s| && keep(s[p]))
  }

  /** out is what the entries picked from s become, in the order of s and as often as s lists them. */
  ghost predicate IsSelection<T, U>(s: seq<T>, keep: T -> bool, f: T -> U, at: seq<nat>, out: seq<U>) {
    && IsPick(at, s, keep)
    && |out| == |at|
    && forall i :: 0 <= i < |at| ==> at[i] in at && at[i] < |s| && out[i] == f(s[at[i]])
  }

  /** What is picked, by recursion on the list. */
  function Selected<T, U>(s: seq<T>, keep: T -> bool, f: T -> U): seq<U> {
    if s == [] then []
    else
      var front, last := Selected(s[..|s| - 1], keep, f), s[|s| - 1];
      if keep(last) then front + [f(last)] else front
  }

  lemma {:induction false} SelectedSelects<T, U>(s: seq<T>, keep: T -> bool, f: T -> U) returns (at: seq<nat>)
    ensures IsSelection(s, keep, f, at, Selected(s, keep, f))
  {
    if s == [] {
      at := [];
    } else {
      var front, last := s[..|s| - 1], s[|s| - 1];
      at := SelectedSelects(front, keep, f);
      OneMoreSelected(front, last, keep, f, at, Selected(front, keep, f));
      assert s == front + [last];
      if keep(last) { at := at + [|front|]; }
    }
  }

  /** One entry more, kept or not. */
  lemma OneMoreSelected<T, U>(s: seq<T>, last: T, keep: T -> bool, f: T -> U, at: seq<nat>, out: seq<U>)
    requires IsSelection(s, keep, f, at, out)
    ensures keep(last) ==> IsSelection(s + [last], keep, f, at + [|s|], out + [f(last)])
    ensures !keep(last) ==> IsSelection(s + [last], keep, f, at, out)
  {
    var all := s + [last];
    assert all[|s|] == last && forall p :: 0 <= p < |s| ==> all[p] == s[p];
    if keep(last) {
      var at' := at + [|s|];
      forall p: nat
        ensures p in at' <==> p < |all| && keep(all[p])
      {
        assert p in at' <==> p in at || p == |s|;
      }
    }
  }

  /** The list, what is kept of it and what becomes of it leave no choice. */
  lemma SelectionIsUnique<T, U>(s: seq<T>, keep: T -> bool, f: T -> U, a: seq<nat>, out: seq<U>, b: seq<nat>, out': seq<U>)
    requires IsSelection(s, keep, f, a, out) && IsSelection(s, keep, f, b, out')
    ensures a == b && out == out'
  {
    SortedAlike(a, b);
  }

  lemma {:induction false} SortedAlike(a: seq<nat>, b: seq<nat>)
    requires forall i, j :: 0 <= i < j < |a| ==> a[i] < a[j]
    requires forall i, j :: 0 <= i < j < |b| ==> b[i] < b[j]
    requires forall p: nat :: p in a <==> p in b
    ensures a == b
  {
    if a == [] || b == [] {
      forall p: nat
        ensures p !in a && p !in b
      {
      }
      NoElements(a);
      NoElements(b);
    } else {
      assert a[0] in b && b[0] in a;
      assert a[0] == b[0];
      forall p: nat
        ensures p in a[1..] <==> p in b[1..]
      {
        assert p in a <==> p == a[0] || p in a[1..];
        assert p in b <==> p == b[0] || p in b[1..];
      }
      SortedAlike(a[1..], b[1..]);
    }
  }
}
