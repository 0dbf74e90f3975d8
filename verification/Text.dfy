/** Strings the way the rest of the model needs them: a total order on names. */
module Text {

  /** Byte order on names, the order sort.Strings and sort.Slice compare by. */
  predicate Before(a: string, b: string) {
    if b == [] then false
    else if a == [] then true
    else a[0] < b[0] || (a[0] == b[0] && Before(a[1..], b[1..]))
  }

  lemma {:induction false} BeforeIsStrict(a: string, b: string)
    ensures !(Before(a, b) && Before(b, a))
    ensures !Before(a, a)
  {
    if a != [] {
      BeforeIsStrict(a[1..], a[1..]);
      if b != [] {
        BeforeIsStrict(a[1..], b[1..]);
      }
    }
  }

  lemma {:induction false} BeforeIsTotal(a: string, b: string)
    ensures a == b || Before(a, b) || Before(b, a)
  {
    if a != [] && b != [] {
      BeforeIsTotal(a[1..], b[1..]);
      if a[0] == b[0] && a[1..] == b[1..] {
        assert a == [a[0]] + a[1..] == [b[0]] + b[1..] == b;
      }
    }
  }

  lemma {:induction false} BeforeIsTransitive(a: string, b: string, c: string)
    requires Before(a, b) && Before(b, c)
    ensures Before(a, c)
  {
    if a != [] && a[0] == b[0] == c[0] {
      BeforeIsTransitive(a[1..], b[1..], c[1..]);
    }
  }

  /** A list in strictly ascending order, so without repeats. */
  ghost predicate Ascending(s: seq<string>) {
    forall i, j :: 0 <= i < j < |s| ==> Before(s[i], s[j])
  }

  ghost function Elements(s: seq<string>): set<string> {
    set x | x in s
  }

  lemma ElementsOfSum(a: seq<string>, b: seq<string>)
    ensures Elements(a + b) == Elements(a) + Elements(b)
  {
  }

  lemma NoElements<T>(s: seq<T>)
    requires forall x :: x !in s
    ensures s == []
  {
    if s != [] {
      FirstIsElement(s);
    }
  }

  lemma FirstIsElement<T>(s: seq<T>)
    requires s != []
    ensures s[0] in s
  {
  }

  /** A set has one ascending listing: sorting it leaves no choice. */
  lemma {:induction false} AscendingIsUnique(a: seq<string>, b: seq<string>)
    requires Ascending(a) && Ascending(b)
    requires forall x :: x in a <==> x in b
    ensures a == b
  {
    if a == [] || b == [] {
      forall x
        ensures x !in a && x !in b
      {
      }
      NoElements(a);
      NoElements(b);
    } else {
      assert a[0] in b;
      assert b[0] in a;
      if a[0] != b[0] {
        var i :| 0 <= i < |b| && b[i] == a[0];
        var j :| 0 <= j < |a| && a[j] == b[0];
        BeforeIsStrict(a[0], b[0]);
        assert false;
      }
      forall x
        ensures x in a[1..] <==> x in b[1..]
      {
        BeforeIsStrict(x, x);
        assert x in a <==> x == a[0] || x in a[1..];
        assert x in b <==> x == b[0] || x in b[1..];
      }
      AscendingIsUnique(a[1..], b[1..]);
    }
  }

  /** Where name belongs in an ascending list it is not part of. */
  method Slot(s: seq<string>, name: string) returns (at: nat)
    requires Ascending(s) && name !in s
    ensures at <= |s|
    ensures forall i :: 0 <= i < at ==> Before(s[i], name)
    ensures forall i :: at <= i < |s| ==> Before(name, s[i])
  {
    at := 0;
    while at < |s| && Before(s[at], name)
      invariant at <= |s|
      invariant forall i :: 0 <= i < at ==> Before(s[i], name)
    {
      at := at + 1;
    }
    if at < |s| {
      BeforeIsTotal(s[at], name);
      forall i | at < i < |s|
        ensures Before(name, s[i])
      {
        BeforeIsTransitive(name, s[at], s[i]);
      }
    }
  }

  lemma InFrontOrLast<T>(s: seq<T>)
    requires s != []
    ensures forall x :: x in s <==> x in s[..|s| - 1] || x == s[|s| - 1]
  {
    assert s == s[..|s| - 1] + [s[|s| - 1]];
  }

  // ------------------------------------------------------------ shapes

  /** The characters strings.TrimSpace removes and strings.Fields splits at. */
  predicate IsSpace(c: char) {
    || '\t' <= c <= '\r' || c == ' ' || c == '\U{85}' || c == '\U{A0}' || c == '\U{1680}'
    || '\U{2000}' <= c <= '\U{200A}' || c == '\U{2028}' || c == '\U{2029}' || c == '\U{202F}'
    || c == '\U{205F}' || c == '\U{3000}'
  }

  predicate Blank(s: string) {
    forall i :: 0 <= i < |s| ==> IsSpace(s[i])
  }

  predicate IsDigit(c: char) {
    '0' <= c <= '9'
  }

  predicate IsLowerOrDigit(c: char) {
    'a' <= c <= 'z' || IsDigit(c)
  }

  /** ^[a-z0-9][a-z0-9-]*$ */
  predicate Kebab(s: string) {
    s != [] && IsLowerOrDigit(s[0]) && forall i :: 0 <= i < |s| ==> IsLowerOrDigit(s[i]) || s[i] == '-'
  }

  /** 0|[1-9]\d* */
  predicate Number(s: string) {
    s == "0" || (s != [] && s[0] != '0' && forall i :: 0 <= i < |s| ==> IsDigit(s[i]))
  }

  /** strings.Index for one character: the first place it stands, or the length. */
  function IndexOf(s: string, c: char): (at: nat)
    ensures at <= |s| && forall i :: 0 <= i < at ==> s[i] != c
    ensures at < |s| ==> s[at] == c
  {
    if s == [] || s[0] == c then 0 else IndexOf(s[1..], c) + 1
  }

  lemma {:induction false} IndexOfSkips(x: string, y: string, c: char)
    requires c !in x
    ensures IndexOf(x + y, c) == |x| + IndexOf(y, c)
  {
    if x == [] {
      assert x + y == y;
    } else {
      assert (x + y)[1..] == x[1..] + y;
      IndexOfSkips(x[1..], y, c);
    }
  }

  /** strings.LastIndex for one character, one past it; 0 when there is none. */
  function AfterLast(s: string, c: char): (at: nat)
    ensures at <= |s| && forall i :: at <= i < |s| ==> s[i] != c
    ensures at > 0 ==> s[at - 1] == c
  {
    if s == [] then 0
    else if s[|s| - 1] == c then |s|
    else
      AfterLast(s[..|s| - 1], c)
  }

  lemma {:induction false} AfterLastFinds(x: string, y: string, c: char)
    requires c !in y
    ensures AfterLast(x + [c] + y, c) == |x| + 1
  {
    var s := x + [c] + y;
    if y != [] {
      assert s[..|s| - 1] == x + [c] + y[..|y| - 1];
      assert s[|s| - 1] == y[|y| - 1];
      AfterLastFinds(x, y[..|y| - 1], c);
    }
  }

  /** filepath.Base for a clean relative path: what stands after the last slash. */
  function Base(path: string): string {
    path[AfterLast(path, '/')..]
  }

  // ------------------------------------------------------------ lines and fields

  function TrimLeft(s: string): (t: string)
    ensures t == [] || !IsSpace(t[0])
  {
    if s != [] && IsSpace(s[0]) then TrimLeft(s[1..]) else s
  }

  function TrimRight(s: string): (t: string)
    ensures t <= s && (t == [] || !IsSpace(t[|t| - 1]))
  {
    if s != [] && IsSpace(s[|s| - 1]) then TrimRight(s[..|s| - 1]) else s
  }

  /** strings.TrimSpace */
  function TrimSpace(s: string): string {
    TrimRight(TrimLeft(s))
  }

  /** strings.TrimSpace(s) == "" says of s that all of it is space. */
  lemma {:induction false} BlankIsTrimmedEmpty(s: string)
    ensures Blank(s) <==> TrimSpace(s) == ""
  {
    if s != [] {
      BlankIsTrimmedEmpty(s[1..]);
      if IsSpace(s[0]) {
        assert forall i :: 1 <= i < |s| ==> s[i] == s[1..][i - 1];
      } else {
        TrimRightKeeps(s);
      }
    }
  }

  lemma {:induction false} TrimRightKeeps(s: string)
    requires s != [] && !IsSpace(s[0])
    ensures TrimRight(s) != ""
  {
    if |s| > 1 { TrimRightKeeps(s[..|s| - 1]); }
  }

  /** strings.Split(s, "\n") */
  function Lines(s: string): (lines: seq<string>)
    ensures lines != []
    ensures forall i :: 0 <= i < |lines| ==> '\n' !in lines[i]
    decreases |s|
  {
    var end := IndexOf(s, '\n');
    if end == |s| then [s] else [s[..end]] + Lines(s[end + 1..])
  }

  /** strings.Join(lines, "\n") */
  function Join(lines: seq<string>): string {
    if lines == [] then []
    else if |lines| == 1 then lines[0]
    else lines[0] + "\n" + Join(lines[1..])
  }

  /** Joining lines and splitting the text gives the lines back. */
  lemma {:induction false} LinesOfJoin(lines: seq<string>)
    requires lines != [] && forall i :: 0 <= i < |lines| ==> '\n' !in lines[i]
    ensures Lines(Join(lines)) == lines
  {
    var first := lines[0];
    if |lines| == 1 {
      IndexOfSkips(first, [], '\n');
      assert first + [] == first;
    } else {
      var tail := ['\n'] + Join(lines[1..]);
      assert Join(lines) == first + tail;
      IndexOfSkips(first, tail, '\n');
      assert Join(lines)[..|first|] == first;
      assert Join(lines)[|first| + 1..] == Join(lines[1..]);
      LinesOfJoin(lines[1..]);
    }
  }

  /** How far the text runs without a space. */
  function TokenEnd(s: string): (end: nat)
    ensures end <= |s|
    ensures s != [] && !IsSpace(s[0]) ==> end > 0
  {
    if s == [] || IsSpace(s[0]) then 0 else TokenEnd(s[1..]) + 1
  }

  /** strings.Fields */
  function Fields(s: string): seq<string>
    decreases |s|
  {
    if s == [] then []
    else if IsSpace(s[0]) then Fields(s[1..])
    else [s[..TokenEnd(s)]] + Fields(s[TokenEnd(s)..])
  }

  predicate NoSpace(s: string) {
    forall i :: 0 <= i < |s| ==> !IsSpace(s[i])
  }

  lemma {:induction false} TokenEndIs(x: string, y: string)
    requires NoSpace(x) && (y == [] || IsSpace(y[0]))
    ensures TokenEnd(x + y) == |x|
  {
    if x == [] {
      assert x + y == y;
    } else {
      assert (x + y)[1..] == x[1..] + y;
      TokenEndIs(x[1..], y);
    }
  }

  /** One record as git prints it, two words with a tab between, reads back as the two words. */
  lemma FieldsOfPair(a: string, b: string)
    requires a != [] && b != [] && NoSpace(a) && NoSpace(b)
    ensures Fields(a + "\t" + b) == [a, b]
  {
    var s := a + "\t" + b;
    var rest := "\t" + b;
    assert s == a + rest;
    TokenEndIs(a, rest);
    assert s[..|a|] == a && s[|a|..] == rest;
    assert rest[1..] == b;
    TokenEndIs(b, []);
    assert b + [] == b;
    assert b[..|b|] == b && b[|b|..] == [];
    assert Fields(b) == [b] + Fields([]);
    assert Fields(rest) == Fields(b);
    assert Fields(s) == [a] + Fields(rest);
  }

  /** strings.HasSuffix */
  predicate EndsWith(s: string, suffix: string) {
    |suffix| <= |s| && s[|s| - |suffix|..] == suffix
  }
}
