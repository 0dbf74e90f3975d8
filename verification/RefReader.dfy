/** Reading the commit of one tag off what git ls-remote prints for it. */
module RefReader {
  import opened Text

  /** What a remote holds under one tag name. An annotated tag is an object of its own that wraps the commit. */
  datatype Ref = Absent | Lightweight(commit: string) | Annotated(tagObject: string, commit: string) {
    /** What the tag resolves to. */
    function Resolved(): (string, bool) {
      if Absent? then ("", false) else (commit, true)
    }
  }

  const PEELED := "^{}"

  predicate IsWord(s: string) {
    s != "" && NoSpace(s)
  }

  function RefName(tag: string): string {
    "refs/tags/" + tag
  }

  function Record(sha: string, name: string): string {
    sha + "\t" + name
  }

  /** A line the remote prints for the ref itself. */
  ghost predicate IsPlainLine(r: Ref, tag: string, line: string) {
    match r
    case Absent => false
    case Lightweight(commit) => line == Record(commit, RefName(tag))
    case Annotated(tagObject, _) => line == Record(tagObject, RefName(tag))
  }

  /** The line it prints besides for the commit an annotated tag wraps. */
  ghost predicate IsPeeledLine(r: Ref, tag: string, line: string) {
    r.Annotated? && line == Record(r.commit, RefName(tag) + PEELED)
  }

  ghost predicate IsRef(r: Ref, tag: string) {
    && IsWord(tag) && '^' !in tag
    && (!r.Absent? ==> IsWord(r.commit))
    && (r.Annotated? ==> IsWord(r.tagObject))
  }

  ghost predicate HasPlainLine(r: Ref, tag: string, lines: seq<string>) {
    exists line :: line in lines && IsPlainLine(r, tag, line)
  }

  ghost predicate HasPeeledLine(r: Ref, tag: string, lines: seq<string>) {
    exists line :: line in lines && IsPeeledLine(r, tag, line)
  }

  /** Whatever has two words is one of the two kinds of line. */
  ghost predicate NothingElse(r: Ref, tag: string, lines: seq<string>) {
    forall line :: line in lines && |Fields(line)| >= 2 ==> IsPlainLine(r, tag, line) || IsPeeledLine(r, tag, line)
  }

  /**
   * lines advertise r: the plain line when there is a ref, the peeled one when it is annotated, in
   * any order and any number; whatever else there is are lines of fewer than two words.
   */
  ghost predicate Advertises(r: Ref, tag: string, lines: seq<string>) {
    && IsRef(r, tag)
    && NothingElse(r, tag, lines)
    && (!r.Absent? ==> HasPlainLine(r, tag, lines))
    && (r.Annotated? ==> HasPeeledLine(r, tag, lines))
  }

  /** The first word of the last line whose second word is, or is not, a peeled name. */
  function LastOf(lines: seq<string>, peeled: bool): string {
    if lines == [] then ""
    else
      var fields := Fields(lines[|lines| - 1]);
      if |fields| >= 2 && EndsWith(fields[1], PEELED) == peeled then fields[0]
      else LastOf(lines[..|lines| - 1], peeled)
  }

  /** The commit read off the lines: the peeled one when there is one, else the plain one. */
  function ReadRef(lines: seq<string>): (string, bool) {
    if LastOf(lines, true) != "" then (LastOf(lines, true), true)
    else if LastOf(lines, false) != "" then (LastOf(lines, false), true)
    else ("", false)
  }

  method RemoteTagAt(stdout: string) returns (sha: string, found: bool)
    ensures (sha, found) == ReadRef(Lines(stdout))
  {
    var lines := Lines(stdout);
    var plain, peeled := "", "";
    for i := 0 to |lines|
      invariant plain == LastOf(lines[..i], false) && peeled == LastOf(lines[..i], true)
    {
      assert lines[..i + 1][..i] == lines[..i];
      var fields := Fields(lines[i]);
      if |fields| < 2 {
        continue;
      }
      if EndsWith(fields[1], PEELED) {
        peeled := fields[0];
      } else {
        plain := fields[0];
      }
    }
    assert lines[..|lines|] == lines;
    if peeled != "" {
      return peeled, true;
    }
    if plain != "" {
      return plain, true;
    }
    return "", false;
  }

  lemma RecordReads(sha: string, name: string)
    requires IsWord(sha) && IsWord(name)
    ensures Fields(Record(sha, name)) == [sha, name]
  {
    FieldsOfPair(sha, name);
  }

  lemma NotPeeled(name: string)
    requires '^' !in name
    ensures !EndsWith(name, PEELED)
  {
    if |name| >= 3 { assert name[|name| - 3..][0] == name[|name| - 3]; }
  }

  lemma PlainLineReads(r: Ref, tag: string, line: string)
    requires IsRef(r, tag) && IsPlainLine(r, tag, line)
    ensures Fields(line) == [if r.Annotated? then r.tagObject else r.commit, RefName(tag)]
    ensures !EndsWith(RefName(tag), PEELED)
  {
    var name := RefName(tag);
    assert NoSpace("refs/tags/");
    RecordReads(if r.Annotated? then r.tagObject else r.commit, name);
    NotPeeled(name);
  }

  lemma PeeledLineReads(r: Ref, tag: string, line: string)
    requires IsRef(r, tag) && IsPeeledLine(r, tag, line)
    ensures Fields(line) == [r.commit, RefName(tag) + PEELED]
    ensures EndsWith(RefName(tag) + PEELED, PEELED)
  {
    assert NoSpace("refs/tags/");
    RecordReads(r.commit, RefName(tag) + PEELED);
  }

  /** A line is one of the two kinds at most, and reads as its own first word. */
  lemma LineReads(r: Ref, tag: string, line: string)
    requires IsRef(r, tag)
    ensures IsPlainLine(r, tag, line) ==>
      && |Fields(line)| == 2 && Fields(line)[0] == (if r.Annotated? then r.tagObject else r.commit)
      && !EndsWith(Fields(line)[1], PEELED) && !IsPeeledLine(r, tag, line)
    ensures IsPeeledLine(r, tag, line) ==>
      |Fields(line)| == 2 && Fields(line)[0] == r.commit && EndsWith(Fields(line)[1], PEELED)
  {
    if IsPlainLine(r, tag, line) { PlainLineReads(r, tag, line); }
    if IsPeeledLine(r, tag, line) { PeeledLineReads(r, tag, line); }
  }

  /** Each kind of line, wherever it stands and however often, is read as its own first word. */
  lemma {:induction false} LastOfAdvertised(r: Ref, tag: string, lines: seq<string>)
    requires IsRef(r, tag)
    requires NothingElse(r, tag, lines)
    ensures LastOf(lines, true) == if HasPeeledLine(r, tag, lines) then r.commit else ""
    ensures LastOf(lines, false) ==
      if HasPlainLine(r, tag, lines) then (if r.Annotated? then r.tagObject else r.commit) else ""
  {
    if lines != [] {
      var front, last := lines[..|lines| - 1], lines[|lines| - 1];
      InFrontOrLast(lines);
      LastOfAdvertised(r, tag, front);
      LineReads(r, tag, last);
    }
  }

  /** Whatever the remote holds under the tag, reading what it prints gives the commit it resolves to, or none. */
  lemma ReadsWhatTheRemoteHolds(r: Ref, tag: string, stdout: string)
    requires Advertises(r, tag, Lines(stdout))
    ensures ReadRef(Lines(stdout)) == r.Resolved()
  {
    LastOfAdvertised(r, tag, Lines(stdout));
  }
}
