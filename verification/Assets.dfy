/** What a release uploads: the planned files and those the asset globs match, digested and staged. */
module Assets {
  import opened Text
  import opened TextLaws

  /** One file to upload. A plain asset, matched by a glob, carries a path and an asset name only. */
  datatype Upload = Upload(path: string, asset: string, name: string, os: string, arch: string)

  /** An entry of spec.assets; anything but text counts as the empty pattern. */
  datatype Pattern = Text(pattern: string) | NotText

  datatype Option<T> = None | Some(value: T)

  /** filepath.Glob under the root: None for a malformed pattern. */
  type Glob = string -> Option<seq<string>>

  datatype Measured = Measured(upload: Upload, digest: string, size: nat)

  /** A file to attach: where it is and the name it is attached under. */
  datatype Staged = Staged(path: string, name: string)

  const INDEX := "index.json"

  /**
   * What the machine answers when files are looked up and read. None of it is looked into here:
   * globbing, relative and absolute paths, digests, and rendering and writing the index.
   */
  datatype Disk = Disk(
    glob: Glob,
    rel: string -> string,
    resolve: string -> Option<string>,
    digest: string -> Option<(string, nat)>,
    writeIndex: seq<Measured> -> Option<(string, string)>)

  function PlainAsset(rel: string): Upload {
    Upload(rel, Base(rel), "", "", "")
  }

  function Paths(uploads: seq<Upload>): set<string> {
    set u | u in uploads :: u.path
  }

  /** Some pattern of the list matches the file at rel. */
  ghost predicate Matched(patterns: seq<Pattern>, disk: Disk, rel: string) {
    exists p, m :: p in patterns && MatchedBy(p, disk, m) && disk.rel(m) == rel
  }

  ghost predicate MatchedBy(p: Pattern, disk: Disk, m: string) {
    p.Text? && p.pattern != "" && disk.glob(p.pattern).Some? && m in disk.glob(p.pattern).value
  }

  /** A pattern that asks for files is well formed and gets at least one. */
  ghost predicate Answered(p: Pattern, disk: Disk) {
    p.Text? && p.pattern != "" ==> disk.glob(p.pattern).Some? && disk.glob(p.pattern).value != []
  }

  /** The patterns add the file at rel to those already planned. */
  ghost predicate Added(uploads: seq<Upload>, patterns: seq<Pattern>, disk: Disk, rel: string) {
    Matched(patterns, disk, rel) && rel !in Paths(uploads)
  }

  /** more lists, each once, the paths the patterns add. */
  ghost predicate Adds(uploads: seq<Upload>, patterns: seq<Pattern>, disk: Disk, more: seq<string>) {
    Distinct(more) && forall rel :: rel in more <==> Added(uploads, patterns, disk, rel)
  }

  ghost predicate Distinct(paths: seq<string>) {
    forall i, j :: 0 <= i < j < |paths| ==> paths[i] != paths[j]
  }

  ghost predicate SortedByAsset(uploads: seq<Upload>) {
    forall i, j :: 0 <= i < j < |uploads| ==> !Before(uploads[j].asset, uploads[i].asset)
  }

  ghost function PlainAssets(paths: seq<string>): seq<Upload> {
    seq(|paths|, i requires 0 <= i < |paths| => PlainAsset(paths[i]))
  }

  /** The uploads and a plain asset for each path in more, in whatever order. */
  ghost predicate Widened(uploads: seq<Upload>, more: seq<string>, out: seq<Upload>) {
    multiset(out) == multiset(uploads + PlainAssets(more))
  }

  /** sort.Slice by asset name: some permutation in order; equal names fall in any order. */
  method SortByAsset(uploads: seq<Upload>) returns (out: seq<Upload>)
    ensures SortedByAsset(out) && multiset(out) == multiset(uploads)
  {
    out := [];
    for i := 0 to |uploads|
      invariant SortedByAsset(out) && multiset(out) == multiset(uploads[..i])
    {
      assert uploads[..i + 1] == uploads[..i] + [uploads[i]];
      out := InsertByAsset(out, uploads[i]);
    }
    assert uploads[..|uploads|] == uploads;
  }

  method InsertByAsset(list: seq<Upload>, u: Upload) returns (out: seq<Upload>)
    requires SortedByAsset(list)
    ensures SortedByAsset(out) && multiset(out) == multiset(list) + multiset{u}
  {
    var at := 0;
    while at < |list| && !Before(u.asset, list[at].asset)
      invariant at <= |list|
      invariant forall i :: 0 <= i < at ==> !Before(u.asset, list[i].asset)
    {
      at := at + 1;
    }
    if at < |list| {
      forall i | at <= i < |list|
        ensures !Before(list[i].asset, u.asset)
      {
        LaterStaysLater(u.asset, list[at].asset, list[i].asset);
      }
    }
    assert list == list[..at] + list[at..];
    out := list[..at] + [u] + list[at..];
  }

  lemma LaterStaysLater(a: string, b: string, c: string)
    requires Before(a, b) && (b == c || !Before(c, b))
    ensures !Before(c, a)
  {
    BeforeIsStrict(a, b);
    if Before(c, a) { BeforeIsTransitive(c, a, b); }
  }

  /** added lists, each once, the paths of the matches that were not seen before. */
  ghost predicate AddedBy(seen: set<string>, matches: seq<string>, disk: Disk, added: seq<string>) {
    && Distinct(added)
    && (forall rel :: rel in added ==> rel !in seen && exists k :: 0 <= k < |matches| && disk.rel(matches[k]) == rel)
    && (forall k :: 0 <= k < |matches| ==> disk.rel(matches[k]) in seen || disk.rel(matches[k]) in added)
  }

  lemma AddedByOne(seen: set<string>, matches: seq<string>, m: string, disk: Disk, added: seq<string>)
    requires AddedBy(seen, matches, disk, added)
    ensures disk.rel(m) in seen || disk.rel(m) in added ==> AddedBy(seen, matches + [m], disk, added)
    ensures disk.rel(m) !in seen && disk.rel(m) !in added ==> AddedBy(seen, matches + [m], disk, added + [disk.rel(m)])
  {
    var all := matches + [m];
    assert all[|matches|] == m;
    forall rel | rel in added
      ensures exists k :: 0 <= k < |all| && disk.rel(all[k]) == rel
    {
      var k :| 0 <= k < |matches| && disk.rel(matches[k]) == rel;
      assert all[k] == matches[k];
    }
  }

  /** A matched file travels under its last path element, and names no platform it was built for. */
  ghost predicate IsPlain(u: Upload, patterns: seq<Pattern>, disk: Disk) {
    Matched(patterns, disk, u.path) && IsLastElement(u.path, u.asset) && u.name == "" && u.os == "" && u.arch == ""
  }

  lemma WidenedByPlain(uploads: seq<Upload>, patterns: seq<Pattern>, disk: Disk, more: seq<string>, out: seq<Upload>)
    requires Adds(uploads, patterns, disk, more) && Widened(uploads, more, out)
    ensures forall u :: u in out ==> u in uploads || IsPlain(u, patterns, disk)
  {
    forall u | u in out && u !in uploads
      ensures IsPlain(u, patterns, disk)
    {
      assert u in multiset(out) && u in multiset(uploads + PlainAssets(more));
      var k :| 0 <= k < |more| && PlainAssets(more)[k] == u;
      assert more[k] in more;
      BaseExactly(u.path, u.asset);
    }
  }

  /** What one pattern adds: every match not seen yet, once. */
  method AddMatches(out: seq<Upload>, seen: set<string>, matches: seq<string>, disk: Disk)
    returns (out': seq<Upload>, seen': set<string>, ghost added: seq<string>)
    ensures seen' == seen + Elements(added)
    ensures AddedBy(seen, matches, disk, added)
    ensures out' == out + PlainAssets(added)
  {
    out', seen', added := out, seen, [];
    for k := 0 to |matches|
      invariant seen' == seen + Elements(added)
      invariant AddedBy(seen, matches[..k], disk, added)
      invariant out' == out + PlainAssets(added)
    {
      assert matches[..k + 1] == matches[..k] + [matches[k]];
      var rel := disk.rel(matches[k]);
      AddedByOne(seen, matches[..k], matches[k], disk, added);
      if rel in seen' {
        continue;
      }
      seen' := seen' + {rel};
      out' := out' + [PlainAsset(rel)];
      assert PlainAssets(added + [rel]) == PlainAssets(added) + [PlainAsset(rel)];
      added := added + [rel];
    }
    assert matches[..|matches|] == matches;
  }

  method SeenPaths(uploads: seq<Upload>) returns (seen: set<string>)
    ensures seen == Paths(uploads)
  {
    seen := {};
    for i := 0 to |uploads|
      invariant seen == Paths(uploads[..i])
    {
      assert uploads[..i + 1] == uploads[..i] + [uploads[i]];
      seen := seen + {uploads[i].path};
    }
    assert uploads[..|uploads|] == uploads;
  }

  /**
   * The planned uploads and every file the patterns match that was not planned, each of these once,
   * in order of asset name. It fails exactly when some pattern is malformed or matches nothing.
   */
  method ExpandAssets(uploads: seq<Upload>, patterns: seq<Pattern>, disk: Disk)
    returns (r: Option<seq<Upload>>, ghost more: seq<string>)
    ensures r.Some? <==> forall p :: p in patterns ==> Answered(p, disk)
    ensures r.Some? ==> SortedByAsset(r.value) && Adds(uploads, patterns, disk, more) && Widened(uploads, more, r.value)
    ensures r.Some? ==> forall u :: u in r.value ==> u in uploads || IsPlain(u, patterns, disk)
  {
    var out := uploads;
    var seen := SeenPaths(uploads);
    more := [];
    for i := 0 to |patterns|
      invariant seen == Paths(uploads) + Elements(more)
      invariant forall p :: p in patterns[..i] ==> Answered(p, disk)
      invariant Adds(uploads, patterns[..i], disk, more)
      invariant out == uploads + PlainAssets(more)
    {
      assert patterns[..i + 1] == patterns[..i] + [patterns[i]];
      var pattern := if patterns[i].Text? then patterns[i].pattern else "";
      if pattern == "" {
        AddsNothing(uploads, patterns[..i], patterns[i], disk, more);
        continue;
      }
      var matches := disk.glob(pattern);
      if matches.None? || |matches.value| == 0 {
        assert !Answered(patterns[i], disk);
        return None, [];
      }
      ghost var added;
      out, seen, added := AddMatches(out, seen, matches.value, disk);
      AddsMatches(uploads, patterns[..i], patterns[i], disk, more, added);
      assert PlainAssets(more + added) == PlainAssets(more) + PlainAssets(added);
      more := more + added;
    }
    assert patterns[..|patterns|] == patterns;
    var sorted := SortByAsset(out);
    r := Some(sorted);
    WidenedByPlain(uploads, patterns, disk, more, sorted);
  }

  lemma AddsNothing(uploads: seq<Upload>, patterns: seq<Pattern>, p: Pattern, disk: Disk, more: seq<string>)
    requires Adds(uploads, patterns, disk, more) && !(p.Text? && p.pattern != "")
    ensures Adds(uploads, patterns + [p], disk, more)
  {
    forall rel
      ensures Matched(patterns + [p], disk, rel) <==> Matched(patterns, disk, rel)
    {
      assert forall q :: q in patterns + [p] <==> q in patterns || q == p;
    }
  }

  lemma MatchedByEither(patterns: seq<Pattern>, p: Pattern, disk: Disk, rel: string)
    ensures Matched(patterns + [p], disk, rel) <==>
      Matched(patterns, disk, rel) || exists m :: MatchedBy(p, disk, m) && disk.rel(m) == rel
  {
    assert forall q :: q in patterns + [p] <==> q in patterns || q == p;
  }

  lemma AddsMatches(uploads: seq<Upload>, patterns: seq<Pattern>, p: Pattern, disk: Disk, more: seq<string>, added: seq<string>)
    requires Adds(uploads, patterns, disk, more)
    requires p.Text? && p.pattern != "" && disk.glob(p.pattern).Some?
    requires AddedBy(Paths(uploads) + Elements(more), disk.glob(p.pattern).value, disk, added)
    ensures Adds(uploads, patterns + [p], disk, more + added)
  {
    forall rel
      ensures rel in more + added <==> Added(uploads, patterns + [p], disk, rel)
    {
      MatchedByEither(patterns, p, disk, rel);
      if rel in added {
        var k :| 0 <= k < |disk.glob(p.pattern).value| && disk.rel(disk.glob(p.pattern).value[k]) == rel;
        assert MatchedBy(p, disk, disk.glob(p.pattern).value[k]);
      }
    }
    forall i, j | 0 <= i < j < |more + added|
      ensures (more + added)[i] != (more + added)[j]
    {
      if i < |more| <= j { assert added[j - |more|] in added; }
    }
  }

  /** The file can be found and read. */
  ghost predicate Readable(u: Upload, disk: Disk) {
    disk.resolve(u.path).Some? && disk.digest(disk.resolve(u.path).value).Some?
  }

  ghost predicate AllReadable(uploads: seq<Upload>, disk: Disk) {
    forall u :: u in uploads ==> Readable(u, disk)
  }

  /** Each file as it is measured, at the place it is found, in the order of the uploads. */
  ghost function Measurement(uploads: seq<Upload>, disk: Disk): seq<Measured>
    requires AllReadable(uploads, disk)
  {
    seq(|uploads|, i requires 0 <= i < |uploads| =>
      assert uploads[i] in uploads;
      var path := disk.resolve(uploads[i].path).value;
      Measured(uploads[i].(path := path), disk.digest(path).value.0, disk.digest(path).value.1))
  }

  /** One asset to each upload, found where the upload resolves to and under its name, and the index last. */
  ghost predicate IsStaging(uploads: seq<Upload>, disk: Disk, assets: seq<Staged>) {
    && |assets| == |uploads| + 1
    && (forall i :: 0 <= i < |uploads| ==>
          disk.resolve(uploads[i].path) == Some(assets[i].path) && assets[i].name == uploads[i].asset)
    && assets[|uploads|].name == INDEX
  }

  /** The index is what the measured files, and nothing claimed about them, render to. */
  ghost predicate IsIndexed(uploads: seq<Upload>, disk: Disk, assets: seq<Staged>, index: string) {
    && AllReadable(uploads, disk) && assets != []
    && disk.writeIndex(Measurement(uploads, disk)) == Some((index, assets[|assets| - 1].path))
  }

  /** What the index is rendered from: entry i is upload i, with the digest and the size of the file staged for it. */
  lemma IndexIsOfWhatIsStaged(uploads: seq<Upload>, disk: Disk, assets: seq<Staged>, i: nat)
    requires AllReadable(uploads, disk) && IsStaging(uploads, disk, assets) && i < |uploads|
    ensures |Measurement(uploads, disk)| == |uploads|
    ensures
      var m := Measurement(uploads, disk)[i];
      m.upload == uploads[i].(path := assets[i].path) && disk.digest(assets[i].path) == Some((m.digest, m.size))
  {
    assert uploads[i] in uploads;
  }

  method StageAssets(uploads: seq<Upload>, disk: Disk) returns (r: Option<seq<Staged>>, index: string)
    ensures r.Some? <==> AllReadable(uploads, disk) && disk.writeIndex(Measurement(uploads, disk)).Some?
    ensures r.Some? ==> IsStaging(uploads, disk, r.value) && IsIndexed(uploads, disk, r.value, index)
  {
    index := "";
    var assets: seq<Staged> := [];
    var digests: seq<Measured> := [];
    for i := 0 to |uploads|
      invariant |assets| == |digests| == i
      invariant forall k :: 0 <= k < i ==>
        disk.resolve(uploads[k].path) == Some(assets[k].path) && assets[k].name == uploads[k].asset
      invariant AllReadable(uploads[..i], disk) && digests == Measurement(uploads[..i], disk)
    {
      assert uploads[i] in uploads && uploads[..i + 1] == uploads[..i] + [uploads[i]];
      var path := disk.resolve(uploads[i].path);
      if path.None? {
        return None, "";
      }
      var d := disk.digest(path.value);
      if d.None? {
        return None, "";
      }
      assets := assets + [Staged(path.value, uploads[i].asset)];
      digests := digests + [Measured(uploads[i].(path := path.value), d.value.0, d.value.1)];
    }
    assert uploads[..|uploads|] == uploads;
    var written := disk.writeIndex(digests);
    if written.None? {
      return None, "";
    }
    index := written.value.0;
    r := Some(assets + [Staged(written.value.1, INDEX)]);
  }

  // ------------------------------------------------------------ expanding and staging together

  /** expanded is what the uploads and patterns call for. */
  ghost predicate CallsFor(uploads: seq<Upload>, patterns: seq<Pattern>, disk: Disk, more: seq<string>, expanded: seq<Upload>) {
    SortedByAsset(expanded) && Adds(uploads, patterns, disk, more) && Widened(uploads, more, expanded)
  }

  ghost predicate StagedAs(uploads: seq<Upload>, patterns: seq<Pattern>, disk: Disk, more: seq<string>, expanded: seq<Upload>,
                           assets: seq<Staged>, index: string) {
    && CallsFor(uploads, patterns, disk, more, expanded)
    && IsStaging(expanded, disk, assets) && IsIndexed(expanded, disk, assets, index)
  }

  /** The assets and the index are a staging of everything called for. */
  ghost predicate StagedFrom(uploads: seq<Upload>, patterns: seq<Pattern>, disk: Disk, assets: seq<Staged>, index: string) {
    exists more, expanded :: StagedAs(uploads, patterns, disk, more, expanded, assets, index)
  }

  ghost predicate CannotBeStaged(expanded: seq<Upload>, disk: Disk) {
    !AllReadable(expanded, disk) || disk.writeIndex(Measurement(expanded, disk)).None?
  }

  /** Every planned and every matched file is staged from where it is found under its own name, and the index last. */
  ghost predicate Complete(uploads: seq<Upload>, patterns: seq<Pattern>, disk: Disk, assets: seq<Staged>) {
    && (forall u :: u in uploads ==> IsStaged(u, disk, assets))
    && (forall rel :: Added(uploads, patterns, disk, rel) ==> IsStaged(PlainAsset(rel), disk, assets))
    && assets != [] && assets[|assets| - 1].name == INDEX
  }

  ghost predicate IsStaged(u: Upload, disk: Disk, assets: seq<Staged>) {
    disk.resolve(u.path).Some? && Staged(disk.resolve(u.path).value, u.asset) in assets
  }

  lemma ExpandedIsStaged(uploads: seq<Upload>, more: seq<string>, expanded: seq<Upload>, disk: Disk,
                         assets: seq<Staged>, u: Upload)
    requires Widened(uploads, more, expanded) && IsStaging(expanded, disk, assets)
    requires u in uploads + PlainAssets(more)
    ensures u in expanded && IsStaged(u, disk, assets)
  {
    assert u in multiset(uploads + PlainAssets(more));
    assert u in multiset(expanded);
    var i :| 0 <= i < |expanded| && expanded[i] == u;
    assert assets[i] == Staged(disk.resolve(u.path).value, u.asset);
  }

  /** Whatever is staged that way is complete, and every planned file could be read. */
  lemma StagingIsComplete(uploads: seq<Upload>, patterns: seq<Pattern>, disk: Disk, assets: seq<Staged>, index: string)
    requires StagedFrom(uploads, patterns, disk, assets, index)
    ensures Complete(uploads, patterns, disk, assets) && AllReadable(uploads, disk)
  {
    var more, expanded :| StagedAs(uploads, patterns, disk, more, expanded, assets, index);
    forall u | u in uploads
      ensures Readable(u, disk) && IsStaged(u, disk, assets)
    {
      assert u in uploads + PlainAssets(more);
      ExpandedIsStaged(uploads, more, expanded, disk, assets, u);
    }
    forall rel | Added(uploads, patterns, disk, rel)
      ensures IsStaged(PlainAsset(rel), disk, assets)
    {
      var k :| 0 <= k < |more| && more[k] == rel;
      assert PlainAssets(more)[k] == PlainAsset(rel);
      assert PlainAsset(rel) in uploads + PlainAssets(more);
      ExpandedIsStaged(uploads, more, expanded, disk, assets, PlainAsset(rel));
    }
  }

  /** A pattern that asks for files goes unanswered, or what is called for cannot be read or indexed. */
  ghost predicate StagingFails(uploads: seq<Upload>, patterns: seq<Pattern>, disk: Disk) {
    || (exists p :: p in patterns && !Answered(p, disk))
    || exists more, expanded :: CallsFor(uploads, patterns, disk, more, expanded) && CannotBeStaged(expanded, disk)
  }

  /** It fails exactly when a pattern goes unanswered, or what is called for cannot be staged. */
  method Stage(uploads: seq<Upload>, patterns: seq<Pattern>, disk: Disk) returns (r: Option<seq<Staged>>, index: string)
    ensures r.Some? ==> StagedFrom(uploads, patterns, disk, r.value, index)
    ensures r.Some? ==> forall p :: p in patterns ==> Answered(p, disk)
    ensures r.None? ==> StagingFails(uploads, patterns, disk)
  {
    var expanded, more := ExpandAssets(uploads, patterns, disk);
    if expanded.None? {
      return None, "";
    }
    assert CallsFor(uploads, patterns, disk, more, expanded.value);
    r, index := StageAssets(expanded.value, disk);
    if r.Some? {
      assert StagedAs(uploads, patterns, disk, more, expanded.value, r.value, index);
    } else {
      assert CannotBeStaged(expanded.value, disk);
    }
  }

  // ------------------------------------------------------------ one asset per name

  predicate DistinctNames(assets: seq<Staged>) {
    forall i, j :: 0 <= i < j < |assets| ==> assets[i].name != assets[j].name
  }

  /** No two different files under one name. */
  predicate NoClash(assets: seq<Staged>) {
    forall a, b :: a in assets && b in assets && a.name == b.name ==> a.path == b.path
  }

  /** The file under each name when the assets are attached in order and a later one replaces an earlier one. */
  function Named(assets: seq<Staged>): map<string, string> {
    if assets == [] then map[]
    else
      var last := assets[|assets| - 1];
      Named(assets[..|assets| - 1])[last.name := last.path]
  }

  /** Under each name stands the last asset of that name. */
  lemma {:induction false} NamedIsLast(assets: seq<Staged>, n: string) returns (k: nat)
    requires n in Named(assets)
    ensures k < |assets| && assets[k] == Staged(Named(assets)[n], n)
    ensures forall l :: k < l < |assets| ==> assets[l].name != n
  {
    var last := |assets| - 1;
    if assets[last].name == n {
      k := last;
    } else {
      k := NamedIsLast(assets[..last], n);
      assert forall l :: 0 <= l < last ==> assets[..last][l] == assets[l];
    }
  }

  lemma {:induction false} NamedHasAll(assets: seq<Staged>)
    ensures forall n :: n in Named(assets) <==> exists a :: a in assets && a.name == n
  {
    if assets != [] {
      NamedHasAll(assets[..|assets| - 1]);
      InFrontOrLast(assets);
    }
  }

  lemma DistinctNamesDoNotClash(assets: seq<Staged>)
    requires DistinctNames(assets)
    ensures NoClash(assets)
  {
    forall a, b | a in assets && b in assets && a.name == b.name
      ensures a.path == b.path
    {
      var i, j :| 0 <= i < |assets| && 0 <= j < |assets| && assets[i] == a && assets[j] == b;
    }
  }

  /** Every asset is there to be had under its name exactly when no two clash. */
  lemma {:induction false} NamedHoldsExactly(assets: seq<Staged>)
    ensures NoClash(assets) <==> forall a :: a in assets ==> a.name in Named(assets) && Named(assets)[a.name] == a.path
  {
    if assets != [] {
      var front := assets[..|assets| - 1];
      InFrontOrLast(assets);
      NamedHoldsExactly(front);
    }
  }

  /** Nothing the plan or the patterns call for travels under a name twice, or under the index's. */
  ghost predicate NamesApart(uploads: seq<Upload>, patterns: seq<Pattern>, disk: Disk) {
    && Distinct(AssetNames(uploads))
    && (forall rel, rel' ::
          Added(uploads, patterns, disk, rel) && Added(uploads, patterns, disk, rel') && Base(rel) == Base(rel') ==> rel == rel')
    && (forall rel :: Added(uploads, patterns, disk, rel) ==> Base(rel) !in AssetNames(uploads) && Base(rel) != INDEX)
    && INDEX !in AssetNames(uploads)
  }

  function AssetNames(uploads: seq<Upload>): seq<string> {
    seq(|uploads|, i requires 0 <= i < |uploads| => uploads[i].asset)
  }

  lemma {:induction false} DistinctIsCount(s: seq<string>)
    ensures Distinct(s) <==> forall x :: multiset(s)[x] <= 1
  {
    if s != [] {
      var front, last := s[..|s| - 1], s[|s| - 1];
      DistinctIsCount(front);
      assert s == front + [last];
      if Distinct(s) {
        assert last !in front;
        assert multiset(front)[last] == 0;
      }
      if forall x :: multiset(s)[x] <= 1 {
        assert multiset(s)[last] == multiset(front)[last] + 1;
        assert last !in multiset(front);
        assert forall x :: multiset(front)[x] <= multiset(s)[x];
      }
    }
  }

  lemma {:induction false} PermutedNames(a: seq<Upload>, b: seq<Upload>)
    requires multiset(a) == multiset(b)
    ensures multiset(AssetNames(a)) == multiset(AssetNames(b))
  {
    if a == [] {
      assert |multiset(b)| == 0;
    } else {
      var front, last := a[..|a| - 1], a[|a| - 1];
      assert a == front + [last];
      assert last in multiset(b);
      var i :| 0 <= i < |b| && b[i] == last;
      var rest := b[..i] + b[i + 1..];
      TakenOut(b, i);
      assert multiset(a) == multiset(front) + multiset{last};
      OneLess(multiset(front), multiset(rest), last);
      PermutedNames(front, rest);
      NamesTakenOut(b, i);
      NamesOfSum(front, [last]);
    }
  }

  lemma OneLess<T>(x: multiset<T>, y: multiset<T>, e: T)
    requires x + multiset{e} == y + multiset{e}
    ensures x == y
  {
    assert x == (x + multiset{e}) - multiset{e} == (y + multiset{e}) - multiset{e} == y;
  }

  lemma TakenOut<T>(s: seq<T>, i: nat)
    requires i < |s|
    ensures multiset(s) == multiset(s[..i] + s[i + 1..]) + multiset{s[i]}
  {
    assert s == s[..i] + [s[i]] + s[i + 1..];
  }

  lemma NamesTakenOut(b: seq<Upload>, i: nat)
    requires i < |b|
    ensures multiset(AssetNames(b)) == multiset(AssetNames(b[..i] + b[i + 1..])) + multiset{b[i].asset}
  {
    var names := AssetNames(b);
    TakenOut(names, i);
    assert names[..i] + names[i + 1..] == AssetNames(b[..i] + b[i + 1..]);
  }

  lemma NamesOfSum(a: seq<Upload>, b: seq<Upload>)
    ensures AssetNames(a + b) == AssetNames(a) + AssetNames(b)
  {
  }

  lemma PlainNames(more: seq<string>)
    ensures |AssetNames(PlainAssets(more))| == |more|
    ensures forall i :: 0 <= i < |more| ==> AssetNames(PlainAssets(more))[i] == Base(more[i])
  {
  }

  lemma ApartMeansDistinct(uploads: seq<Upload>, patterns: seq<Pattern>, disk: Disk, more: seq<string>)
    requires Adds(uploads, patterns, disk, more) && NamesApart(uploads, patterns, disk)
    ensures Distinct(AssetNames(uploads) + AssetNames(PlainAssets(more)))
    ensures INDEX !in AssetNames(uploads) + AssetNames(PlainAssets(more))
  {
    var planned, plain := AssetNames(uploads), AssetNames(PlainAssets(more));
    PlainNames(more);
    forall i | 0 <= i < |more|
      ensures plain[i] !in planned && plain[i] != INDEX
    {
      assert more[i] in more;
    }
    forall i, j | 0 <= i < j < |more|
      ensures plain[i] != plain[j]
    {
      assert more[i] in more && more[j] in more;
    }
  }

  lemma DistinctParts(a: seq<string>, b: seq<string>)
    requires Distinct(a + b)
    ensures Distinct(a) && Distinct(b) && forall x :: x in b ==> x !in a
  {
    var all := a + b;
    assert forall i :: 0 <= i < |a| ==> all[i] == a[i];
    assert forall i :: 0 <= i < |b| ==> all[|a| + i] == b[i];
  }

  lemma DistinctMeansApart(uploads: seq<Upload>, patterns: seq<Pattern>, disk: Disk, more: seq<string>)
    requires Adds(uploads, patterns, disk, more)
    requires Distinct(AssetNames(uploads) + AssetNames(PlainAssets(more)))
    requires INDEX !in AssetNames(uploads) + AssetNames(PlainAssets(more))
    ensures NamesApart(uploads, patterns, disk)
  {
    var planned, plain := AssetNames(uploads), AssetNames(PlainAssets(more));
    PlainNames(more);
    DistinctParts(planned, plain);
    forall rel | Added(uploads, patterns, disk, rel)
      ensures Base(rel) !in planned && Base(rel) != INDEX
    {
      var k :| 0 <= k < |more| && more[k] == rel;
      assert plain[k] in plain;
    }
    forall rel, rel' | Added(uploads, patterns, disk, rel) && Added(uploads, patterns, disk, rel') && Base(rel) == Base(rel')
      ensures rel == rel'
    {
      var k, k' :| 0 <= k < |more| && 0 <= k' < |more| && more[k] == rel && more[k'] == rel';
      assert plain[k] == plain[k'];
    }
  }

  lemma StagedNames(expanded: seq<Upload>, disk: Disk, assets: seq<Staged>)
    requires IsStaging(expanded, disk, assets)
    ensures DistinctNames(assets) <==> Distinct(AssetNames(expanded)) && INDEX !in AssetNames(expanded)
  {
    var names := AssetNames(expanded);
    assert forall i :: 0 <= i < |names| ==> assets[i].name == names[i];
    if i :| 0 <= i < |names| && names[i] == INDEX {
      assert assets[i].name == assets[|names|].name;
    }
  }

  /** The staged names are distinct exactly when what the plan and the patterns call for is. */
  lemma StagedNamesAreDistinctExactly(uploads: seq<Upload>, patterns: seq<Pattern>, disk: Disk, assets: seq<Staged>,
                                      index: string)
    requires StagedFrom(uploads, patterns, disk, assets, index)
    ensures DistinctNames(assets) <==> NamesApart(uploads, patterns, disk)
  {
    var more, expanded :| StagedAs(uploads, patterns, disk, more, expanded, assets, index);
    var called := AssetNames(uploads) + AssetNames(PlainAssets(more));
    StagedNames(expanded, disk, assets);
    NamesOfSum(uploads, PlainAssets(more));
    PermutedNames(expanded, uploads + PlainAssets(more));
    DistinctIsCount(called);
    DistinctIsCount(AssetNames(expanded));
    assert INDEX in AssetNames(expanded) <==> INDEX in multiset(AssetNames(expanded));
    assert INDEX in called <==> INDEX in multiset(called);
    if NamesApart(uploads, patterns, disk) { ApartMeansDistinct(uploads, patterns, disk, more); }
    if Distinct(called) && INDEX !in called { DistinctMeansApart(uploads, patterns, disk, more); }
  }

  /** With names apart, each planned and each matched file, and the index, is what is found under its name. */
  lemma EveryFileIsFound(uploads: seq<Upload>, patterns: seq<Pattern>, disk: Disk, assets: seq<Staged>, index: string)
    requires StagedFrom(uploads, patterns, disk, assets, index) && NamesApart(uploads, patterns, disk)
    ensures forall u :: u in uploads ==>
      u.asset in Named(assets) && disk.resolve(u.path) == Some(Named(assets)[u.asset])
    ensures forall rel :: Added(uploads, patterns, disk, rel) ==>
      Base(rel) in Named(assets) && disk.resolve(rel) == Some(Named(assets)[Base(rel)])
    ensures assets != [] && INDEX in Named(assets) && Named(assets)[INDEX] == assets[|assets| - 1].path
  {
    StagingIsComplete(uploads, patterns, disk, assets, index);
    StagedNamesAreDistinctExactly(uploads, patterns, disk, assets, index);
    DistinctNamesDoNotClash(assets);
    NamedHoldsExactly(assets);
    forall rel | Added(uploads, patterns, disk, rel)
      ensures Base(rel) in Named(assets) && disk.resolve(rel) == Some(Named(assets)[Base(rel)])
    {
      assert IsStaged(PlainAsset(rel), disk, assets);
    }
    assert assets[|assets| - 1] in assets;
  }

  // A pattern that matches one file name in two directories: nothing refuses it.

  const TWO_APPS: seq<Pattern> := [Text("*/app")]

  const TWO_APPS_STAGED := [Staged("/root/a/app", "app"), Staged("/root/b/app", "app"), Staged("/tmp/index.json", INDEX)]

  function TwoAppsDisk(): Disk {
    Disk(pattern => Some(if pattern == "*/app" then ["a/app", "b/app"] else []),
         name => name,
         path => Some("/root/" + path),
         path => Some(("digest", 0)),
         digests => Some(("{}", "/tmp/index.json")))
  }

  lemma AppsAreNamedAlike()
    ensures Base("a/app") == "app" && Base("b/app") == "app"
  {
    AfterLastFinds("a", "app", '/');
    AfterLastFinds("b", "app", '/');
    assert "a" + ['/'] + "app" == "a/app" && "b" + ['/'] + "app" == "b/app";
  }

  lemma TwoAppsAreAdded()
    ensures Adds([], TWO_APPS, TwoAppsDisk(), ["a/app", "b/app"])
  {
    var disk, more := TwoAppsDisk(), ["a/app", "b/app"];
    assert disk.glob("*/app") == Some(more);
    assert MatchedBy(TWO_APPS[0], disk, more[0]) && MatchedBy(TWO_APPS[0], disk, more[1]);
    assert disk.rel(more[0]) == more[0] && disk.rel(more[1]) == more[1];
    forall rel | Matched(TWO_APPS, disk, rel)
      ensures rel in more
    {
      var p, m :| p in TWO_APPS && MatchedBy(p, disk, m) && disk.rel(m) == rel;
    }
  }

  lemma TwoAppsAreStaged()
    ensures StagedFrom([], TWO_APPS, TwoAppsDisk(), TWO_APPS_STAGED, "{}")
  {
    var more, disk := ["a/app", "b/app"], TwoAppsDisk();
    var expanded := PlainAssets(more);
    TwoAppsAreFound();
    TwoAppsAreAdded();
    TwoAppsAreOrdered();
    assert expanded == [] + PlainAssets(more);
    assert IsIndexed(expanded, disk, TWO_APPS_STAGED, "{}");
    assert StagedAs([], TWO_APPS, disk, more, expanded, TWO_APPS_STAGED, "{}");
  }

  lemma TwoAppsAreFound()
    ensures IsStaging(PlainAssets(["a/app", "b/app"]), TwoAppsDisk(), TWO_APPS_STAGED)
  {
    AppsAreNamedAlike();
    assert "/root/" + "a/app" == "/root/a/app" && "/root/" + "b/app" == "/root/b/app";
  }

  lemma TwoAppsAreOrdered()
    ensures SortedByAsset(PlainAssets(["a/app", "b/app"]))
  {
    AppsAreNamedAlike();
    BeforeIsStrict("app", "app");
  }

  /** Both files are staged under the one name. */
  lemma TwoAppsClash()
    ensures StagedFrom([], TWO_APPS, TwoAppsDisk(), TWO_APPS_STAGED, "{}")
    ensures !NamesApart([], TWO_APPS, TwoAppsDisk()) && !DistinctNames(TWO_APPS_STAGED) && !NoClash(TWO_APPS_STAGED)
  {
    TwoAppsAreStaged();
    var a, b := TWO_APPS_STAGED[0], TWO_APPS_STAGED[1];
    assert a.name == b.name && a in TWO_APPS_STAGED && b in TWO_APPS_STAGED;
    StagedNamesAreDistinctExactly([], TWO_APPS, TwoAppsDisk(), TWO_APPS_STAGED, "{}");
  }
}
