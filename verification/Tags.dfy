/** Tag names: a version, possibly behind a factory's prefix, and reading the latest one back. */
module Tags {
  import opened Text
  import opened TextLaws

  /** The one way a prefix and a version make a tag name. */
  function TagName(prefix: string, version: string): string {
    if prefix == "" then version else prefix + "-" + version
  }

  /** A prefix a pipeline may declare: none, or lowercase kebab-case. */
  predicate IsPrefix(prefix: string) {
    prefix == "" || Kebab(prefix)
  }

  /** [0-9A-Za-z.-] */
  predicate IsPrereleaseChar(c: char) {
    IsDigit(c) || 'a' <= c <= 'z' || 'A' <= c <= 'Z' || c == '.' || c == '-'
  }

  /** (-[0-9A-Za-z.-]+)? */
  predicate IsSuffix(s: string) {
    s == "" || (|s| > 1 && s[0] == '-' && forall i :: 1 <= i < |s| ==> IsPrereleaseChar(s[i]))
  }

  /** The shape of a version: v, three numbers without leading zeros, and an optional prerelease. */
  ghost predicate HasSemverShape(s: string) {
    exists major, minor, patch, suffix :: IsSemverOf(s, major, minor, patch, suffix)
  }

  ghost predicate IsSemverOf(s: string, major: string, minor: string, patch: string, suffix: string) {
    && Number(major) && Number(minor) && Number(patch) && IsSuffix(suffix)
    && s == ['v'] + Dotted(major, Dotted(minor, patch + suffix))
  }

  function Dotted(front: string, rest: string): string {
    front + (['.'] + rest)
  }

  predicate IsPatchPart(s: string) {
    var dash := IndexOf(s, '-');
    Number(s[..dash]) && IsSuffix(s[dash..])
  }

  predicate IsMinorPart(s: string) {
    var dot := IndexOf(s, '.');
    dot < |s| && Number(s[..dot]) && IsPatchPart(s[dot + 1..])
  }

  predicate IsMajorPart(s: string) {
    var dot := IndexOf(s, '.');
    dot < |s| && Number(s[..dot]) && IsMinorPart(s[dot + 1..])
  }

  /** Recognises a version left to right, as the compiled SemverTag expression does. */
  predicate IsSemver(s: string) {
    s != [] && s[0] == 'v' && IsMajorPart(s[1..])
  }

  lemma CutsAtTheDot(front: string, rest: string)
    requires '.' !in front
    ensures IndexOf(Dotted(front, rest), '.') == |front| < |Dotted(front, rest)|
    ensures Dotted(front, rest)[..|front|] == front && Dotted(front, rest)[|front| + 1..] == rest
  {
    IndexOfSkips(front, ['.'] + rest, '.');
  }

  /** Cutting at the first dot and joining again changes nothing. */
  lemma CutAgain(s: string, dot: nat) returns (front: string, rest: string)
    requires dot < |s| && s[dot] == '.'
    ensures s == Dotted(front, rest) && front == s[..dot] && rest == s[dot + 1..]
  {
    front, rest := s[..dot], s[dot + 1..];
  }

  lemma MajorPart(s: string) returns (number: string, rest: string)
    requires IsMajorPart(s)
    ensures s == Dotted(number, rest) && Number(number) && IsMinorPart(rest)
  {
    number, rest := CutAgain(s, IndexOf(s, '.'));
  }

  lemma MinorPart(s: string) returns (number: string, rest: string)
    requires IsMinorPart(s)
    ensures s == Dotted(number, rest) && Number(number) && IsPatchPart(rest)
  {
    number, rest := CutAgain(s, IndexOf(s, '.'));
  }

  lemma PatchPart(s: string) returns (number: string, suffix: string)
    requires IsPatchPart(s)
    ensures s == number + suffix && Number(number) && IsSuffix(suffix)
  {
    number, suffix := s[..IndexOf(s, '-')], s[IndexOf(s, '-')..];
  }

  lemma RecognisedHasTheShape(s: string)
    requires IsMajorPart(s)
    ensures HasSemverShape(['v'] + s)
  {
    var major, afterMajor := MajorPart(s);
    var minor, afterMinor := MinorPart(afterMajor);
    var patch, suffix := PatchPart(afterMinor);
    assert IsSemverOf(['v'] + s, major, minor, patch, suffix);
  }

  lemma NumberIsPlain(s: string, c: char)
    requires Number(s) && !IsDigit(c)
    ensures c !in s
  {
  }

  lemma PatchIsRecognised(patch: string, suffix: string)
    requires Number(patch) && IsSuffix(suffix)
    ensures IsPatchPart(patch + suffix)
  {
    NumberIsPlain(patch, '-');
    IndexOfSkips(patch, suffix, '-');
    assert (patch + suffix)[..|patch|] == patch && (patch + suffix)[|patch|..] == suffix;
  }

  lemma MinorIsRecognised(minor: string, rest: string)
    requires Number(minor) && IsPatchPart(rest)
    ensures IsMinorPart(Dotted(minor, rest))
  {
    NumberIsPlain(minor, '.');
    CutsAtTheDot(minor, rest);
  }

  lemma MajorIsRecognised(major: string, rest: string)
    requires Number(major) && IsMinorPart(rest)
    ensures IsMajorPart(Dotted(major, rest))
  {
    NumberIsPlain(major, '.');
    CutsAtTheDot(major, rest);
  }

  lemma ShapeIsRecognised(s: string, major: string, minor: string, patch: string, suffix: string)
    requires IsSemverOf(['v'] + s, major, minor, patch, suffix)
    ensures IsMajorPart(s)
  {
    PatchIsRecognised(patch, suffix);
    MinorIsRecognised(minor, patch + suffix);
    MajorIsRecognised(major, Dotted(minor, patch + suffix));
    assert s == (['v'] + s)[1..] == Dotted(major, Dotted(minor, patch + suffix));
  }

  /** What is recognised is exactly what has the shape. */
  lemma RecognisesTheShape(s: string)
    ensures IsSemver(s) <==> HasSemverShape(s)
  {
    if s != [] && s[0] == 'v' {
      assert s == ['v'] + s[1..];
      if IsMajorPart(s[1..]) { RecognisedHasTheShape(s[1..]); }
      if HasSemverShape(s) {
        var major, minor, patch, suffix :| IsSemverOf(s, major, minor, patch, suffix);
        ShapeIsRecognised(s[1..], major, minor, patch, suffix);
      }
    }
  }

  lemma PrereleaseExactly(c: char)
    ensures IsPrereleaseChar(c) <==> c in DIGITS || c in LOWER || c in UPPER || c == '.' || c == '-'
  {
    DigitsExactly(c);
    LowerExactly(c);
    UpperExactly(c);
  }

  /** What follows the three numbers: nothing, or a dash and at least one prerelease character. */
  lemma SuffixExactly(s: string)
    ensures IsSuffix(s) <==> s == "" || exists pre :: IsPrerelease(pre) && s == ['-'] + pre
  {
    if IsSuffix(s) && s != "" {
      assert s == ['-'] + s[1..];
      forall c | c in s[1..]
        ensures c in DIGITS || c in LOWER || c in UPPER || c == '.' || c == '-'
      {
        PrereleaseExactly(c);
      }
    }
    if pre :| IsPrerelease(pre) && s == ['-'] + pre {
      forall i | 1 <= i < |s|
        ensures IsPrereleaseChar(s[i])
      {
        assert s[i] == pre[i - 1];
        PrereleaseExactly(s[i]);
      }
    }
  }

  ghost predicate IsPrerelease(pre: string) {
    pre != "" && forall c :: c in pre ==> c in DIGITS || c in LOWER || c in UPPER || c == '.' || c == '-'
  }

  /** The text of a version: v, three natural numbers between dots, and a prerelease or none. */
  ghost predicate IsVersion(s: string, major: nat, minor: nat, patch: nat, suffix: string) {
    && s == ['v'] + Dotted(Decimal(major), Dotted(Decimal(minor), Decimal(patch) + suffix))
    && (suffix == "" || exists pre :: IsPrerelease(pre) && suffix == ['-'] + pre)
  }

  /** The versions are exactly these texts. */
  lemma VersionsExactly(s: string)
    ensures IsSemver(s) <==> exists major, minor, patch, suffix :: IsVersion(s, major, minor, patch, suffix)
  {
    RecognisesTheShape(s);
    if HasSemverShape(s) {
      var major, minor, patch, suffix :| IsSemverOf(s, major, minor, patch, suffix);
      var x := NumberHasValue(major);
      var y := NumberHasValue(minor);
      var z := NumberHasValue(patch);
      SuffixExactly(suffix);
      assert IsVersion(s, x, y, z, suffix);
    }
    if major, minor, patch, suffix :| IsVersion(s, major, minor, patch, suffix) {
      DecimalIsNumber(major);
      DecimalIsNumber(minor);
      DecimalIsNumber(patch);
      SuffixExactly(suffix);
      assert IsSemverOf(s, Decimal(major), Decimal(minor), Decimal(patch), suffix);
    }
  }

  // ------------------------------------------------------------ namespaces

  /** Reads prefix and version back off a tag name: the version starts after the last dash before the first dot. */
  function Decoded(tag: string): (string, string) {
    var at := AfterLast(tag[..IndexOf(tag, '.')], '-');
    if at == 0 then ("", tag) else (tag[..at - 1], tag[at..])
  }

  /** The head of a version, v and its major number, holds neither a dot nor a dash. */
  lemma VersionHead(version: string) returns (head: string, rest: string)
    requires IsSemver(version)
    ensures version == Dotted(head, rest) && '.' !in head && '-' !in head
  {
    var major, afterMajor := MajorPart(version[1..]);
    HeadOf(version, major, afterMajor);
    head, rest := ['v'] + major, afterMajor;
  }

  lemma HeadOf(version: string, major: string, rest: string)
    requires version != [] && version[0] == 'v' && version[1..] == Dotted(major, rest) && Number(major)
    ensures version == Dotted(['v'] + major, rest) && '.' !in ['v'] + major && '-' !in ['v'] + major
  {
    NumberIsPlain(major, '.');
    NumberIsPlain(major, '-');
    assert version == ['v'] + version[1..];
  }

  /** Up to the first dot a prefixed tag name is the prefix, a dash, and the head of the version. */
  lemma PrefixedIsDotted(prefix: string, head: string, rest: string)
    requires prefix != ""
    ensures TagName(prefix, Dotted(head, rest)) == Dotted(prefix + ['-'] + head, rest)
  {
  }

  lemma CutsTagName(prefix: string, version: string)
    requires prefix != ""
    ensures |TagName(prefix, version)| == |prefix| + 1 + |version|
    ensures TagName(prefix, version)[..|prefix|] == prefix && TagName(prefix, version)[|prefix| + 1..] == version
  {
  }

  lemma DecodesPrefixed(prefix: string, head: string, rest: string)
    requires prefix != "" && '.' !in prefix && '.' !in head && '-' !in head
    ensures Decoded(TagName(prefix, Dotted(head, rest))) == (prefix, Dotted(head, rest))
  {
    PrefixedIsDotted(prefix, head, rest);
    CutsAtTheDot(prefix + ['-'] + head, rest);
    AfterLastFinds(prefix, head, '-');
    CutsTagName(prefix, Dotted(head, rest));
  }

  lemma DecodesBare(head: string, rest: string)
    requires '.' !in head && '-' !in head
    ensures Decoded(TagName("", Dotted(head, rest))) == ("", Dotted(head, rest))
  {
    CutsAtTheDot(head, rest);
  }

  lemma PrefixHasNoDot(prefix: string)
    requires IsPrefix(prefix)
    ensures '.' !in prefix
  {
  }

  /** The prefix never hides in the version, nor the version in the prefix. */
  lemma DecodesWhatWasNamed(prefix: string, version: string)
    requires IsPrefix(prefix) && IsSemver(version)
    ensures Decoded(TagName(prefix, version)) == (prefix, version)
  {
    var head, rest := VersionHead(version);
    PrefixHasNoDot(prefix);
    if prefix == "" {
      DecodesBare(head, rest);
    } else {
      DecodesPrefixed(prefix, head, rest);
    }
  }

  /** No two of prefix and version share a tag name. */
  lemma TagNamesAreDisjoint(prefix: string, version: string, prefix': string, version': string)
    requires IsPrefix(prefix) && IsSemver(version) && IsPrefix(prefix') && IsSemver(version')
    requires TagName(prefix, version) == TagName(prefix', version')
    ensures prefix == prefix' && version == version'
  {
    DecodesWhatWasNamed(prefix, version);
    DecodesWhatWasNamed(prefix', version');
  }

  /** line holds the tag of that version under that prefix. */
  predicate Holds(line: string, prefix: string, version: string) {
    IsSemver(version) && TrimSpace(line) == TagName(prefix, version)
  }

  /** strings.CutPrefix on the name of a tag: what is left is the only text that can stand behind the prefix. */
  lemma CutIsTheOnlyVersion(tag: string, prefix: string, v: string)
    requires prefix != "" && prefix + "-" <= tag
    ensures TagName(prefix, v) == tag <==> v == tag[|prefix| + 1..]
  {
    var front := prefix + "-";
    assert tag == front + tag[|front|..];
    assert (front + v)[|front|..] == v;
  }

  ghost predicate HoldsNone(line: string, prefix: string) {
    forall v :: !Holds(line, prefix, v)
  }

  /** No line holds a version under the prefix. */
  ghost predicate HeldNowhere(lines: seq<string>, prefix: string) {
    forall i :: 0 <= i < |lines| ==> HoldsNone(lines[i], prefix)
  }

  /** Line i is the first to hold one, and it holds this. */
  ghost predicate HeldFirst(lines: seq<string>, prefix: string, tag: string, i: nat) {
    i < |lines| && HeldNowhere(lines[..i], prefix) && Holds(lines[i], prefix, tag)
  }

  /** Whether one trimmed line is a version under the prefix. */
  method VersionOn(line: string, prefix: string) returns (found: bool, tag: string)
    ensures found ==> Holds(line, prefix, tag) && tag != ""
    ensures !found ==> HoldsNone(line, prefix)
  {
    tag := TrimSpace(line);
    if prefix != "" {
      if !(prefix + "-" <= tag) {
        return false, tag;
      }
      forall v
        ensures TagName(prefix, v) == tag <==> v == tag[|prefix| + 1..]
      {
        CutIsTheOnlyVersion(tag, prefix, v);
      }
      tag := tag[|prefix| + 1..];
    }
    found := IsSemver(tag);
  }

  lemma OneMoreHoldsNone(lines: seq<string>, prefix: string, i: nat)
    requires i < |lines| && HeldNowhere(lines[..i], prefix) && HoldsNone(lines[i], prefix)
    ensures HeldNowhere(lines[..i + 1], prefix)
  {
  }

  /**
   * The first listed line that is a version under this prefix, without the prefix; empty when no line is.
   * stdout is what git tag --list printed, newest first.
   */
  method LatestTag(stdout: string, prefix: string) returns (tag: string)
    ensures tag != "" ==> exists i :: HeldFirst(Lines(stdout), prefix, tag, i)
    ensures tag == "" ==> HeldNowhere(Lines(stdout), prefix)
  {
    var lines := Lines(stdout);
    for i := 0 to |lines|
      invariant HeldNowhere(lines[..i], prefix)
    {
      var found;
      found, tag := VersionOn(lines[i], prefix);
      if found {
        assert HeldFirst(lines, prefix, tag, i);
        return;
      }
      OneMoreHoldsNone(lines, prefix, i);
    }
    assert lines[..|lines|] == lines;
    tag := "";
  }

  /** So a factory never reads a version another factory's prefix stands in front of. */
  lemma LatestTagStaysInItsNamespace(line: string, prefix: string, tag: string, prefix': string, version': string)
    requires IsPrefix(prefix) && IsPrefix(prefix') && IsSemver(version')
    requires Holds(line, prefix, tag) && TrimSpace(line) == TagName(prefix', version')
    ensures prefix == prefix' && tag == version'
  {
    TagNamesAreDisjoint(prefix, tag, prefix', version');
  }

  predicate Plain(s: string) {
    forall i :: 0 <= i < |s| ==> IsPrereleaseChar(s[i])
  }

  lemma PatchPartIsPlain(s: string)
    requires IsPatchPart(s)
    ensures Plain(s)
  {
    var dash := IndexOf(s, '-');
    forall i | 0 <= i < |s|
      ensures IsPrereleaseChar(s[i])
    {
      if i < dash { assert s[..dash][i] == s[i]; } else { assert s[dash..][i - dash] == s[i]; }
    }
  }

  lemma DottedIsPlain(number: string, rest: string)
    requires Number(number) && Plain(rest)
    ensures Plain(Dotted(number, rest))
  {
  }

  lemma MinorPartIsPlain(s: string)
    requires IsMinorPart(s)
    ensures Plain(s)
  {
    var minor, afterMinor := MinorPart(s);
    PatchPartIsPlain(afterMinor);
    DottedIsPlain(minor, afterMinor);
  }

  lemma MajorPartIsPlain(s: string)
    requires IsMajorPart(s)
    ensures Plain(s)
  {
    var major, afterMajor := MajorPart(s);
    MinorPartIsPlain(afterMajor);
    DottedIsPlain(major, afterMajor);
  }

  lemma SemverIsPlain(s: string)
    requires IsSemver(s)
    ensures Plain(s)
  {
    MajorPartIsPlain(s[1..]);
    assert s == ['v'] + s[1..];
  }

  /** A tag name holds no space and no caret, so it can be a ref and is never taken for a peeled one. */
  lemma TagNameIsPlain(prefix: string, version: string)
    requires IsPrefix(prefix) && IsSemver(version)
    ensures NoSpace(TagName(prefix, version)) && '^' !in TagName(prefix, version) && TagName(prefix, version) != ""
  {
    SemverIsPlain(version);
    var tag := TagName(prefix, version);
    forall i | 0 <= i < |tag|
      ensures IsPrereleaseChar(tag[i])
    {
      if prefix != "" && i < |prefix| { assert tag[i] == prefix[i]; }
      if prefix != "" && i > |prefix| { assert tag[i] == version[i - |prefix| - 1]; }
    }
  }
}
