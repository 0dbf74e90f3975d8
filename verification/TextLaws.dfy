/** What the string functions come to, said without them. */
module TextLaws {
  import opened Text

  /** a comes first when it is a proper prefix of b, or has the smaller character where they first differ. */
  lemma {:induction false} BeforeExactly(a: string, b: string)
    ensures Before(a, b) <==> exists k: nat :: DiffersAt(a, b, k)
  {
    if a != [] && b != [] && a[0] == b[0] {
      BeforeExactly(a[1..], b[1..]);
      if Before(a, b) {
        var k: nat :| DiffersAt(a[1..], b[1..], k);
        assert a[..k + 1] == [a[0]] + a[1..][..k] && b[..k + 1] == [b[0]] + b[1..][..k];
        assert DiffersAt(a, b, k + 1);
      }
      if k: nat :| DiffersAt(a, b, k) {
        if k > 0 {
          assert a[1..][..k - 1] == a[..k][1..] && b[1..][..k - 1] == b[..k][1..];
          assert DiffersAt(a[1..], b[1..], k - 1);
        }
      }
    } else {
      forall k: nat | 0 < k <= |a| && k <= |b|
        ensures a[..k] != b[..k]
      {
        assert a[..k][0] == a[0] && b[..k][0] == b[0];
      }
      if Before(a, b) { assert DiffersAt(a, b, 0); }
    }
  }

  /** After k common characters a ends and b does not, or a goes on with the smaller character. */
  ghost predicate DiffersAt(a: string, b: string, k: nat) {
    k <= |a| && k < |b| && a[..k] == b[..k] && (k == |a| || a[k] < b[k])
  }

  // ------------------------------------------------------------ characters and numbers

  const DIGITS := "0123456789"

  const LOWER := "abcdefghijklmnopqrstuvwxyz"

  const UPPER := "ABCDEFGHIJKLMNOPQRSTUVWXYZ"

  lemma UpperExactly(c: char)
    ensures 'A' <= c <= 'Z' <==> c in UPPER
  {
    if 'A' <= c <= 'Z' { assert c == UPPER[c as int - 'A' as int]; }
  }

  lemma DigitsExactly(c: char)
    ensures IsDigit(c) <==> c in DIGITS
  {
    if IsDigit(c) { assert c == DIGITS[c as int - '0' as int]; }
  }

  lemma LowerExactly(c: char)
    ensures 'a' <= c <= 'z' <==> c in LOWER
  {
    if 'a' <= c <= 'z' { assert c == LOWER[c as int - 'a' as int]; }
  }

  /** Lowercase kebab-case: lowercase letters, digits and dashes, the first no dash. */
  lemma KebabExactly(s: string)
    ensures Kebab(s) <==> s != "" && (forall c :: c in s ==> c in LOWER + DIGITS + "-") && s[0] != '-'
  {
    forall c: char
      ensures IsLowerOrDigit(c) <==> c in LOWER + DIGITS
    {
      DigitsExactly(c);
      LowerExactly(c);
    }
    assert forall c :: c in LOWER + DIGITS + "-" <==> c in LOWER + DIGITS || c == '-';
  }

  /** The decimal text of a number. */
  function Decimal(n: nat): string {
    if n < 10 then [DIGITS[n]] else Decimal(n / 10) + [DIGITS[n % 10]]
  }

  lemma {:induction false} DecimalIsNumber(n: nat)
    ensures Number(Decimal(n)) && Decimal(n) != "" && (n > 0 ==> Decimal(n)[0] != '0')
  {
    if n >= 10 {
      DecimalIsNumber(n / 10);
      DigitsExactly(DIGITS[n % 10]);
    } else {
      DigitsExactly(DIGITS[n]);
    }
  }

  lemma {:induction false} NumberHasValue(s: string) returns (n: nat)
    requires Number(s)
    ensures s == Decimal(n) && (s != "0" ==> n > 0)
  {
    var last := s[|s| - 1];
    DigitsExactly(last);
    var d: nat :| d < 10 && DIGITS[d] == last;
    if |s| == 1 {
      n := d;
    } else {
      var front := s[..|s| - 1];
      assert front[0] == s[0] && Number(front);
      var m := NumberHasValue(front);
      n := 10 * m + d;
      assert n / 10 == m && n % 10 == d;
      assert s == front + [last];
    }
  }

  /** A number is the decimal text of a natural number, and each natural number has one. */
  lemma NumberExactly(s: string)
    ensures Number(s) <==> exists n: nat :: s == Decimal(n)
  {
    if Number(s) { var n := NumberHasValue(s); }
    if n: nat :| s == Decimal(n) { DecimalIsNumber(n); }
  }

  // ------------------------------------------------------------ cutting

  /** What stands after the last slash, the whole text when there is none. */
  ghost predicate IsLastElement(path: string, e: string) {
    '/' !in e && exists dir :: path == dir + e && (dir == "" || dir[|dir| - 1] == '/')
  }

  lemma BaseIsLast(path: string)
    ensures IsLastElement(path, Base(path))
  {
    NoSlashInBase(path);
    CutsIntoDirAndBase(path, AfterLast(path, '/'));
  }

  lemma NoSlashInBase(path: string)
    ensures '/' !in Base(path)
  {
    var at := AfterLast(path, '/');
    forall i | 0 <= i < |Base(path)|
      ensures Base(path)[i] != '/'
    {
      assert Base(path)[i] == path[at + i];
    }
  }

  lemma CutsIntoDirAndBase(path: string, at: nat)
    requires at <= |path| && (at > 0 ==> path[at - 1] == '/')
    ensures exists dir :: path == dir + path[at..] && (dir == "" || dir[|dir| - 1] == '/')
  {
    assert path == path[..at] + path[at..];
  }

  lemma LastIsBase(dir: string, e: string)
    requires '/' !in e && (dir == "" || dir[|dir| - 1] == '/')
    ensures Base(dir + e) == e
  {
    if dir != "" {
      assert dir + e == dir[..|dir| - 1] + ['/'] + e;
      AfterLastFinds(dir[..|dir| - 1], e, '/');
    }
  }

  lemma BaseExactly(path: string, e: string)
    ensures IsLastElement(path, e) <==> e == Base(path)
  {
    BaseIsLast(path);
    if IsLastElement(path, e) {
      var dir :| path == dir + e && (dir == "" || dir[|dir| - 1] == '/');
      LastIsBase(dir, e);
    }
  }

  /** A text is cut at the first place the character stands. */
  lemma CutExactly(s: string, c: char, front: string, back: string)
    requires c !in front
    ensures s == front + ([c] + back) <==> IndexOf(s, c) == |front| < |s| && s[..|front|] == front && s[|front| + 1..] == back
  {
    if s == front + ([c] + back) { IndexOfSkips(front, [c] + back, c); }
  }

  /** Splitting a text at its line ends loses nothing. */
  lemma {:induction false} JoinOfLines(s: string)
    ensures Join(Lines(s)) == s
    decreases |s|
  {
    var end := IndexOf(s, '\n');
    if end < |s| {
      JoinOfLines(s[end + 1..]);
      assert Lines(s)[1..] == Lines(s[end + 1..]);
      assert s == s[..end] + "\n" + s[end + 1..];
    }
  }

  // ------------------------------------------------------------ spaces

  /** The spaces of Unicode: five controls, the space, and those beyond ASCII. */
  const ASCII_SPACES := "\t\n\U{0B}\U{0C}\r "

  const WIDE_SPACES := "\U{2000}\U{2001}\U{2002}\U{2003}\U{2004}\U{2005}\U{2006}\U{2007}\U{2008}\U{2009}\U{200A}"

  const OTHER_SPACES := "\U{85}\U{A0}\U{1680}\U{2028}\U{2029}\U{202F}\U{205F}\U{3000}"

  lemma SpacesExactly(c: char)
    ensures IsSpace(c) <==> c in ASCII_SPACES || c in WIDE_SPACES || c in OTHER_SPACES
  {
    if '\t' <= c <= '\r' { assert c == ASCII_SPACES[c as int - '\t' as int]; }
    if '\U{2000}' <= c <= '\U{200A}' { assert c == WIDE_SPACES[c as int - 0x2000]; }
    assert ASCII_SPACES[5] == ' ';
    assert OTHER_SPACES[0] == '\U{85}' && OTHER_SPACES[1] == '\U{A0}' && OTHER_SPACES[2] == '\U{1680}';
    assert OTHER_SPACES[3] == '\U{2028}' && OTHER_SPACES[4] == '\U{2029}' && OTHER_SPACES[5] == '\U{202F}';
    assert OTHER_SPACES[6] == '\U{205F}' && OTHER_SPACES[7] == '\U{3000}';
  }

  lemma {:induction false} TrimLeftSkips(a: string, t: string)
    requires Blank(a)
    ensures TrimLeft(a + t) == TrimLeft(t)
  {
    if a == [] {
      assert a + t == t;
    } else {
      assert (a + t)[1..] == a[1..] + t;
      TrimLeftSkips(a[1..], t);
    }
  }

  lemma {:induction false} TrimRightSkips(t: string, b: string)
    requires Blank(b)
    ensures TrimRight(t + b) == TrimRight(t)
  {
    if b == [] {
      assert t + b == t;
    } else {
      assert (t + b)[..|t + b| - 1] == t + b[..|b| - 1];
      TrimRightSkips(t, b[..|b| - 1]);
    }
  }

  lemma {:induction false} TrimLeftCuts(s: string) returns (a: string)
    ensures Blank(a) && s == a + TrimLeft(s)
  {
    if s != [] && IsSpace(s[0]) {
      var rest := TrimLeftCuts(s[1..]);
      a := [s[0]] + rest;
    } else {
      a := [];
    }
  }

  lemma {:induction false} TrimRightCuts(s: string) returns (b: string)
    ensures Blank(b) && s == TrimRight(s) + b
  {
    if s != [] && IsSpace(s[|s| - 1]) {
      var rest := TrimRightCuts(s[..|s| - 1]);
      b := rest + [s[|s| - 1]];
    } else {
      b := [];
    }
  }

  /** t neither begins nor ends with a space, and around it in s there is nothing else. */
  ghost predicate IsTrimmed(s: string, t: string) {
    && (t != "" ==> !IsSpace(t[0]) && !IsSpace(t[|t| - 1]))
    && exists a, b :: Blank(a) && Blank(b) && s == a + t + b
  }

  lemma TrimSpaceTrims(s: string)
    ensures IsTrimmed(s, TrimSpace(s))
  {
    var l := TrimLeft(s);
    var a := TrimLeftCuts(s);
    var b := TrimRightCuts(l);
    assert s == a + TrimSpace(s) + b;
    if TrimSpace(s) != "" { assert TrimSpace(s)[0] == l[0]; }
  }

  lemma TrimmedIsFound(a: string, t: string, b: string)
    requires Blank(a) && Blank(b) && (t != "" ==> !IsSpace(t[0]) && !IsSpace(t[|t| - 1]))
    ensures TrimSpace(a + (t + b)) == t
  {
    TrimLeftSkips(a, t + b);
    if t == "" {
      assert t + b == b;
      BlankIsTrimmedEmpty(b);
    } else {
      assert TrimLeft(t + b) == t + b;
      TrimRightSkips(t, b);
    }
  }

  lemma TrimSpaceExactly(s: string, t: string)
    ensures IsTrimmed(s, t) <==> t == TrimSpace(s)
  {
    TrimSpaceTrims(s);
    if IsTrimmed(s, t) {
      var a, b :| Blank(a) && Blank(b) && s == a + t + b;
      assert s == a + (t + b);
      TrimmedIsFound(a, t, b);
    }
  }

  /** The words of a text: spaces before it do not matter ... */
  lemma {:induction false} FieldsSkip(a: string, s: string)
    requires Blank(a)
    ensures Fields(a + s) == Fields(s)
  {
    if a == [] {
      assert a + s == s;
    } else {
      assert (a + s)[1..] == a[1..] + s;
      FieldsSkip(a[1..], s);
    }
  }

  /** ... and a word up to the next space, or to the end, is the first of them. */
  lemma FieldsTake(word: string, rest: string)
    requires word != "" && NoSpace(word) && (rest == "" || IsSpace(rest[0]))
    ensures Fields(word + rest) == [word] + Fields(rest)
  {
    TokenEndIs(word, rest);
    assert (word + rest)[..|word|] == word && (word + rest)[|word|..] == rest;
  }

  lemma EndsWithExactly(s: string, suffix: string)
    ensures EndsWith(s, suffix) <==> exists front :: s == front + suffix
  {
    if EndsWith(s, suffix) { assert s == s[..|s| - |suffix|] + suffix; }
  }
}
