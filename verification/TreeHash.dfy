/** The text a tree fingerprint is taken of: the listed files, without those the patterns ignore. */
module TreeHash {
  import opened Selection
  import opened Text
  import opened TextLaws

  /** path.Match, which this model does not look into: whether a pattern matches a name. */
  type Matcher = (string, string) -> bool

  /** Whether one pattern, already trimmed, ignores the path. */
  predicate Ignores(pattern: string, path: string, glob: Matcher) {
    if pattern == "" then false
    else if "/" <= pattern then glob(pattern[1..], path)
    else if EndsWith(pattern, "/**") then
      var dir := pattern[..|pattern| - 3];
      path == dir || dir + "/" <= path
    else if "**" <= pattern then
      glob(pattern[2..], "/" + path) || glob("*" + pattern[2..], Base(path))
    else glob(pattern, path)
  }

  method Ignored(path: string, patterns: seq<string>, glob: Matcher) returns (ignored: bool)
    ensures ignored <==> exists i :: 0 <= i < |patterns| && Ignores(TrimSpace(patterns[i]), path, glob)
  {
    for i := 0 to |patterns|
      invariant forall j :: 0 <= j < i ==> !Ignores(TrimSpace(patterns[j]), path, glob)
    {
      var pattern := TrimSpace(patterns[i]);
      if pattern == "" {
        continue;
      }
      if "/" <= pattern {
        if glob(pattern[1..], path) {
          return true;
        }
        continue;
      }
      if EndsWith(pattern, "/**") {
        var dir := pattern[..|pattern| - 3];
        if path == dir || dir + "/" <= path {
          return true;
        }
        continue;
      }
      if "**" <= pattern {
        if glob(pattern[2..], "/" + path) {
          return true;
        }
        if glob("*" + pattern[2..], Base(path)) {
          return true;
        }
        continue;
      }
      if glob(pattern, path) {
        return true;
      }
    }
    return false;
  }

  // ------------------------------------------------------------ what each kind of pattern ignores

  lemma SuffixOf(front: string, suffix: string)
    ensures EndsWith(front + suffix, suffix) && (front + suffix)[..|front + suffix| - |suffix|] == front
  {
  }

  /** dir with slash and two stars after it: the directory and everything under it. */
  lemma IgnoresEverythingUnder(dir: string, path: string, glob: Matcher)
    requires dir != "" && dir[0] != '/'
    ensures Ignores(dir + "/**", path, glob) <==> path == dir || exists rest :: path == dir + "/" + rest
  {
    SuffixOf(dir, "/**");
    assert !("/" <= dir + "/**") by { assert (dir + "/**")[0] == dir[0]; }
    if dir + "/" <= path { assert path == dir + "/" + path[|dir| + 1..]; }
  }

  /** A slash in front: the rest is matched against the whole path. */
  lemma IgnoresFromTheRoot(rest: string, path: string, glob: Matcher)
    ensures Ignores("/" + rest, path, glob) <==> glob(rest, path)
  {
    assert ("/" + rest)[1..] == rest && "/" <= "/" + rest;
  }

  /** Two stars in front: the rest is matched after a slash, or its last part against the last element of the path. */
  lemma IgnoresAnywhere(rest: string, path: string, element: string, glob: Matcher)
    requires !EndsWith("**" + rest, "/**") && IsLastElement(path, element)
    ensures Ignores("**" + rest, path, glob) <==> glob(rest, "/" + path) || glob("*" + rest, element)
  {
    assert ("**" + rest)[2..] == rest && ("**" + rest)[0] == '*' && "**" <= "**" + rest;
    BaseExactly(path, element);
  }

  /** Nothing at all ignores nothing, and any other pattern is matched as it is. */
  lemma IgnoresAsItMatches(pattern: string, path: string, glob: Matcher)
    ensures !Ignores("", path, glob)
    ensures pattern != "" && pattern[0] != '/' && !EndsWith(pattern, "/**") && !("**" <= pattern) ==>
      (Ignores(pattern, path, glob) <==> glob(pattern, path))
  {
  }

  /** A line of the listing is mode, type and object, a tab, and the path. */
  function PathOf(line: string): string {
    var tab := IndexOf(line, '\t');
    if tab < |line| then line[tab + 1..] else ""
  }

  /** A trimmed line that takes part in the fingerprint. */
  ghost predicate Counts(line: string, patterns: seq<string>, glob: Matcher) {
    && line != "" && IndexOf(line, '\t') < |line|
    && forall i :: 0 <= i < |patterns| ==> !Ignores(TrimSpace(patterns[i]), PathOf(line), glob)
  }

  ghost function Kept(lines: seq<string>, patterns: seq<string>, glob: Matcher): seq<string> {
    if lines == [] then []
    else
      var front, last := Kept(lines[..|lines| - 1], patterns, glob), TrimSpace(lines[|lines| - 1]);
      if Counts(last, patterns, glob) then front + [last] else front
  }

  ghost function LineCounts(patterns: seq<string>, glob: Matcher): string -> bool {
    (line: string) => Counts(TrimSpace(line), patterns, glob)
  }

  ghost function Trimmed(): string -> string {
    (line: string) => TrimSpace(line)
  }

  lemma {:induction false} KeptIsSelected(lines: seq<string>, patterns: seq<string>, glob: Matcher)
    ensures Kept(lines, patterns, glob) == Selected(lines, LineCounts(patterns, glob), Trimmed())
  {
    if lines != [] { KeptIsSelected(lines[..|lines| - 1], patterns, glob); }
  }

  /** What is kept are the trimmed lines that count, in the order and as often as they are listed. */
  lemma KeptSelects(lines: seq<string>, patterns: seq<string>, glob: Matcher) returns (at: seq<nat>)
    ensures IsSelection(lines, LineCounts(patterns, glob), Trimmed(), at, Kept(lines, patterns, glob))
  {
    KeptIsSelected(lines, patterns, glob);
    at := SelectedSelects(lines, LineCounts(patterns, glob), Trimmed());
  }

  /** The text that is hashed. */
  method Preimage(stdout: string, patterns: seq<string>, glob: Matcher) returns (text: string)
    ensures text == Join(Kept(Lines(stdout), patterns, glob))
  {
    var lines := Lines(stdout);
    var kept: seq<string> := [];
    for i := 0 to |lines|
      invariant kept == Kept(lines[..i], patterns, glob)
    {
      assert lines[..i + 1][..i] == lines[..i];
      var line := TrimSpace(lines[i]);
      if line == "" || IndexOf(line, '\t') == |line| {
        continue;
      }
      var ignored := Ignored(PathOf(line), patterns, glob);
      if ignored {
        continue;
      }
      kept := kept + [line];
    }
    assert lines[..|lines|] == lines;
    text := Join(kept);
  }

  ghost predicate IsListing(lines: seq<string>) {
    forall i :: 0 <= i < |lines| ==> '\n' !in lines[i]
  }

  lemma {:induction false} TrimKeepsOut(s: string, c: char)
    requires c !in s
    ensures c !in TrimLeft(s) && c !in TrimRight(s)
  {
    if s != [] {
      TrimKeepsOut(s[1..], c);
      TrimKeepsOut(s[..|s| - 1], c);
    }
  }

  lemma {:induction false} KeptAreLines(lines: seq<string>, patterns: seq<string>, glob: Matcher)
    requires IsListing(lines)
    ensures forall i :: 0 <= i < |Kept(lines, patterns, glob)| ==>
      Kept(lines, patterns, glob)[i] != "" && '\n' !in Kept(lines, patterns, glob)[i]
  {
    if lines != [] {
      var last := lines[|lines| - 1];
      KeptAreLines(lines[..|lines| - 1], patterns, glob);
      TrimKeepsOut(last, '\n');
      TrimKeepsOut(TrimLeft(last), '\n');
    }
  }

  lemma JoinIsInjective(a: seq<string>, b: seq<string>)
    requires forall i :: 0 <= i < |a| ==> a[i] != "" && '\n' !in a[i]
    requires forall i :: 0 <= i < |b| ==> b[i] != "" && '\n' !in b[i]
    requires Join(a) == Join(b)
    ensures a == b
  {
    if a != [] { LinesOfJoin(a); }
    if b != [] { LinesOfJoin(b); }
    if a == [] && b != [] { NotEmptyText(b); }
    if b == [] && a != [] { NotEmptyText(a); }
  }

  lemma NotEmptyText(lines: seq<string>)
    requires lines != [] && lines[0] != ""
    ensures Join(lines) != ""
  {
    if |lines| > 1 { assert Join(lines)[0] == lines[0][0]; }
  }

  /** Two listings hash the same text exactly when they keep the same lines in the same order. */
  lemma SameTextExactlyForSameKeptLines(a: seq<string>, b: seq<string>, patterns: seq<string>, glob: Matcher)
    requires IsListing(a) && IsListing(b)
    ensures Join(Kept(a, patterns, glob)) == Join(Kept(b, patterns, glob)) <==> Kept(a, patterns, glob) == Kept(b, patterns, glob)
  {
    KeptAreLines(a, patterns, glob);
    KeptAreLines(b, patterns, glob);
    if Join(Kept(a, patterns, glob)) == Join(Kept(b, patterns, glob)) {
      JoinIsInjective(Kept(a, patterns, glob), Kept(b, patterns, glob));
    }
  }

  lemma {:induction false} KeptOfSum(a: seq<string>, b: seq<string>, patterns: seq<string>, glob: Matcher)
    ensures Kept(a + b, patterns, glob) == Kept(a, patterns, glob) + Kept(b, patterns, glob)
  {
    if b == [] {
      assert a + b == a;
    } else {
      assert (a + b)[..|a + b| - 1] == a + b[..|b| - 1];
      KeptOfSum(a, b[..|b| - 1], patterns, glob);
    }
  }

  /** Adding a file changes the hashed text exactly when no pattern ignores it. */
  lemma AFileCountsExactlyWhenNotIgnored(a: seq<string>, line: string, b: seq<string>, patterns: seq<string>, glob: Matcher)
    requires IsListing(a) && IsListing(b) && '\n' !in line
    ensures Join(Kept(a + [line] + b, patterns, glob)) == Join(Kept(a + b, patterns, glob)) <==>
      !Counts(TrimSpace(line), patterns, glob)
  {
    KeptOfSum(a, b, patterns, glob);
    KeptOfSum(a + [line], b, patterns, glob);
    KeptOfSum(a, [line], patterns, glob);
    assert Kept([line], patterns, glob) == if Counts(TrimSpace(line), patterns, glob) then [TrimSpace(line)] else [] by {
      assert [line][..0] == [];
    }
    SameTextExactlyForSameKeptLines(a + [line] + b, a + b, patterns, glob);
    if Counts(TrimSpace(line), patterns, glob) {
      assert |Kept(a + [line] + b, patterns, glob)| == |Kept(a + b, patterns, glob)| + 1;
    } else {
      assert Kept(a, patterns, glob) + [] == Kept(a, patterns, glob);
    }
  }

  // ------------------------------------------------------------ the files behind the lines

  /** One file of a tree as git lists it: mode, type and object, and the path, quoted when it is unusual. */
  datatype Entry = Entry(head: string, path: string)

  ghost predicate IsEntry(e: Entry) {
    && e.head != "" && !IsSpace(e.head[0]) && '\t' !in e.head && '\n' !in e.head && '\n' !in e.path
  }

  ghost predicate AreEntries(es: seq<Entry>) {
    forall e :: e in es ==> IsEntry(e)
  }

  function LineOf(e: Entry): string {
    e.head + (['\t'] + e.path)
  }

  function LinesOf(es: seq<Entry>): seq<string> {
    seq(|es|, i requires 0 <= i < |es| => LineOf(es[i]))
  }

  ghost predicate IsIgnored(path: string, patterns: seq<string>, glob: Matcher) {
    exists i :: 0 <= i < |patterns| && Ignores(TrimSpace(patterns[i]), path, glob)
  }

  /** What the fingerprint sees of a tree: spaces at the end of a path are gone, and a path of spaces with them. */
  ghost function Seen(es: seq<Entry>, patterns: seq<string>, glob: Matcher): seq<Entry> {
    if es == [] then []
    else
      var front, e := Seen(es[..|es| - 1], patterns, glob), es[|es| - 1];
      if Blank(e.path) || IsIgnored(TrimRight(e.path), patterns, glob) then front
      else front + [Entry(e.head, TrimRight(e.path))]
  }

  lemma {:induction false} TrimRightOfSum(a: string, b: string)
    ensures TrimRight(a + b) == if TrimRight(b) == "" then TrimRight(a) else a + TrimRight(b)
  {
    if b == [] {
      assert a + b == a;
    } else {
      assert (a + b)[..|a + b| - 1] == a + b[..|b| - 1];
      TrimRightOfSum(a, b[..|b| - 1]);
    }
  }

  lemma {:induction false} TrimRightOfBlank(s: string)
    ensures Blank(s) <==> TrimRight(s) == ""
  {
    if s != [] {
      TrimRightOfBlank(s[..|s| - 1]);
    }
  }

  lemma TrimmedLine(e: Entry)
    requires IsEntry(e)
    ensures TrimSpace(LineOf(e)) == if Blank(e.path) then TrimRight(e.head) else LineOf(Entry(e.head, TrimRight(e.path)))
  {
    var line := LineOf(e);
    assert line[0] == e.head[0];
    assert TrimLeft(line) == line;
    TrimRightOfBlank(e.path);
    TrimRightOfSum(e.head, ['\t'] + e.path);
    TrimRightOfSum(['\t'], e.path);
    assert TrimRight(['\t']) == "" by { assert ['\t'][..0] == ""; }
  }

  lemma LineReads(e: Entry)
    requires '\t' !in e.head
    ensures IndexOf(LineOf(e), '\t') == |e.head| < |LineOf(e)| && PathOf(LineOf(e)) == e.path
  {
    IndexOfSkips(e.head, ['\t'] + e.path, '\t');
  }

  lemma CountsWhenSeen(e: Entry, patterns: seq<string>, glob: Matcher)
    requires IsEntry(e)
    ensures Counts(TrimSpace(LineOf(e)), patterns, glob) <==>
      !Blank(e.path) && !IsIgnored(TrimRight(e.path), patterns, glob)
  {
    TrimmedLine(e);
    if Blank(e.path) {
      TrimKeepsOut(e.head, '\t');
      IndexOfSkips(TrimRight(e.head), [], '\t');
      assert TrimRight(e.head) + [] == TrimRight(e.head);
    } else {
      LineReads(Entry(e.head, TrimRight(e.path)));
    }
  }

  lemma {:induction false} KeptIsSeen(es: seq<Entry>, patterns: seq<string>, glob: Matcher)
    requires AreEntries(es)
    ensures Kept(LinesOf(es), patterns, glob) == LinesOf(Seen(es, patterns, glob))
  {
    if es != [] {
      var front, e := es[..|es| - 1], es[|es| - 1];
      KeptIsSeen(front, patterns, glob);
      assert LinesOf(es)[..|es| - 1] == LinesOf(front);
      TrimmedLine(e);
      CountsWhenSeen(e, patterns, glob);
    }
  }

  lemma {:induction false} SeenAreEntries(es: seq<Entry>, patterns: seq<string>, glob: Matcher)
    requires AreEntries(es)
    ensures AreEntries(Seen(es, patterns, glob))
  {
    if es != [] {
      var e := es[|es| - 1];
      assert e in es && IsEntry(e);
      SeenAreEntries(es[..|es| - 1], patterns, glob);
      TrimKeepsOut(e.path, '\n');
    }
  }

  lemma LinesTellApart(a: seq<Entry>, b: seq<Entry>)
    requires AreEntries(a) && AreEntries(b) && LinesOf(a) == LinesOf(b)
    ensures a == b
  {
    assert |a| == |LinesOf(a)| == |LinesOf(b)| == |b|;
    forall i | 0 <= i < |a|
      ensures a[i] == b[i]
    {
      assert a[i] in a && b[i] in b && LineOf(a[i]) == LinesOf(a)[i] == LineOf(b[i]);
      LineReads(a[i]);
      LineReads(b[i]);
      assert LineOf(a[i])[..|a[i].head|] == a[i].head && LineOf(b[i])[..|b[i].head|] == b[i].head;
    }
  }

  lemma EntriesAreListing(es: seq<Entry>)
    requires AreEntries(es)
    ensures IsListing(LinesOf(es))
  {
    forall i | 0 <= i < |es|
      ensures '\n' !in LinesOf(es)[i]
    {
      assert es[i] in es;
    }
  }

  /** Two trees share the hashed text exactly when the same is seen of them. */
  lemma SameTextExactlyForWhatIsSeen(a: seq<Entry>, b: seq<Entry>, patterns: seq<string>, glob: Matcher)
    requires AreEntries(a) && AreEntries(b)
    ensures Join(Kept(LinesOf(a), patterns, glob)) == Join(Kept(LinesOf(b), patterns, glob)) <==>
      Seen(a, patterns, glob) == Seen(b, patterns, glob)
  {
    EntriesAreListing(a);
    EntriesAreListing(b);
    SameTextExactlyForSameKeptLines(LinesOf(a), LinesOf(b), patterns, glob);
    KeptIsSeen(a, patterns, glob);
    KeptIsSeen(b, patterns, glob);
    SeenAreEntries(a, patterns, glob);
    SeenAreEntries(b, patterns, glob);
    if LinesOf(Seen(a, patterns, glob)) == LinesOf(Seen(b, patterns, glob)) {
      LinesTellApart(Seen(a, patterns, glob), Seen(b, patterns, glob));
    }
  }

  /** The files no pattern ignores, as they are. */
  ghost function Unignored(es: seq<Entry>, patterns: seq<string>, glob: Matcher): seq<Entry> {
    if es == [] then []
    else
      var front, e := Unignored(es[..|es| - 1], patterns, glob), es[|es| - 1];
      if IsIgnored(e.path, patterns, glob) then front else front + [e]
  }

  ghost predicate NoTrailingSpace(es: seq<Entry>) {
    forall e :: e in es ==> e.path != "" && !IsSpace(e.path[|e.path| - 1])
  }

  /** Where no path ends in a space, what is seen is every file that is not ignored, as it is. */
  lemma {:induction false} AllIsSeen(es: seq<Entry>, patterns: seq<string>, glob: Matcher)
    requires NoTrailingSpace(es)
    ensures Seen(es, patterns, glob) == Unignored(es, patterns, glob)
  {
    if es != [] {
      InFrontOrLast(es);
      AllIsSeen(es[..|es| - 1], patterns, glob);
      TrimRightOfBlank(es[|es| - 1].path);
    }
  }

  /** So there two trees share the hashed text exactly when they have the same unignored files. */
  lemma SameTextExactlyForSameFiles(a: seq<Entry>, b: seq<Entry>, patterns: seq<string>, glob: Matcher)
    requires AreEntries(a) && AreEntries(b) && NoTrailingSpace(a) && NoTrailingSpace(b)
    ensures Join(Kept(LinesOf(a), patterns, glob)) == Join(Kept(LinesOf(b), patterns, glob)) <==>
      Unignored(a, patterns, glob) == Unignored(b, patterns, glob)
  {
    SameTextExactlyForWhatIsSeen(a, b, patterns, glob);
    AllIsSeen(a, patterns, glob);
    AllIsSeen(b, patterns, glob);
  }

  lemma {:induction false} SeenOfSum(a: seq<Entry>, b: seq<Entry>, patterns: seq<string>, glob: Matcher)
    ensures Seen(a + b, patterns, glob) == Seen(a, patterns, glob) + Seen(b, patterns, glob)
  {
    if b == [] {
      assert a + b == a;
    } else {
      assert (a + b)[..|a + b| - 1] == a + b[..|b| - 1];
      SeenOfSum(a, b[..|b| - 1], patterns, glob);
    }
  }

  lemma SpacedIsSeenAlike(e: Entry, patterns: seq<string>, glob: Matcher)
    ensures Seen([Entry(e.head, e.path + " ")], patterns, glob) == Seen([e], patterns, glob)
  {
    var spaced := Entry(e.head, e.path + " ");
    TrimRightOfSum(e.path, " ");
    assert TrimRight(" ") == "" by { assert " "[..0] == ""; }
    TrimRightOfBlank(e.path);
    TrimRightOfBlank(spaced.path);
    assert [spaced][..0] == [] == [e][..0];
  }

  /** And a path that does end in a space is never told from the same path without it, wherever the file stands. */
  lemma TrailingSpaceIsNotSeen(front: seq<Entry>, e: Entry, back: seq<Entry>, patterns: seq<string>, glob: Matcher)
    requires AreEntries(front) && IsEntry(e) && AreEntries(back)
    ensures
      var spaced := Entry(e.head, e.path + " ");
      Join(Kept(LinesOf(front + [spaced] + back), patterns, glob)) == Join(Kept(LinesOf(front + [e] + back), patterns, glob))
  {
    var spaced := Entry(e.head, e.path + " ");
    assert IsEntry(spaced);
    SpacedIsSeenAlike(e, patterns, glob);
    SeenOfSum(front, [spaced], patterns, glob);
    SeenOfSum(front, [e], patterns, glob);
    SeenOfSum(front + [spaced], back, patterns, glob);
    SeenOfSum(front + [e], back, patterns, glob);
    SameTextExactlyForWhatIsSeen(front + [spaced] + back, front + [e] + back, patterns, glob);
  }
}
