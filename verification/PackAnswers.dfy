/** Exactly when a tree packs and with what answer, said of the tree as it was collected. */
module PackAnswers {
  import opened Common
  import opened Ordering
  import opened PackFormat
  import opened Pack
  import opened PackTheorems

  // ----------------------------------------------------------------- the tree itself

  predicate SharePath(tree: seq<Resource>) {
    exists i, j :: 0 <= i < j < |tree| && tree[i].path == tree[j].path
  }

  function TotalLength(tree: seq<Resource>): nat {
    if tree == [] then 0 else |tree[0].content| + TotalLength(tree[1..])
  }

  lemma {:induction false} InsertLength(x: Resource, rs: seq<Resource>)
    ensures TotalLength(Insert(x, rs, ByPath())) == |x.content| + TotalLength(rs)
    ensures |Insert(x, rs, ByPath())| == 1 + |rs|
  {
    if rs != [] && !ByPath()(x, rs[0]) {
      InsertLength(x, rs[1..]);
      assert Insert(x, rs, ByPath())[1..] == Insert(x, rs[1..], ByPath());
    } else {
      assert ([x] + rs)[1..] == rs;
    }
  }

  lemma {:induction false} SortLength(tree: seq<Resource>)
    ensures TotalLength(Sort(tree, ByPath())) == TotalLength(tree) && |Sort(tree, ByPath())| == |tree|
  {
    if tree != [] {
      SortLength(tree[1..]);
      InsertLength(tree[0], Sort(tree[1..], ByPath()));
    }
  }

  lemma {:induction false} ContentLength(rs: seq<Resource>)
    ensures |Concat(Contents(rs))| == TotalLength(rs)
  {
    if rs != [] {
      ContentLength(rs[1..]);
      assert Contents(rs) == [rs[0].content] + Contents(rs[1..]);
      ConcatHead(rs[0].content, Contents(rs[1..]));
    }
  }

  lemma {:induction false} ConcatHead(part: Bytes, parts: seq<Bytes>)
    ensures Concat([part] + parts) == part + Concat(parts)
  {
    if parts == [] {
      assert [part] + parts == [part];
      assert [part][..0] == [];
    } else {
      var n := |parts| - 1;
      ConcatHead(part, parts[..n]);
      assert ([part] + parts)[..n + 1] == [part] + parts[..n];
    }
  }

  /** Sorting shows a shared path as two equal neighbours, and only then. */
  lemma SharedPathShows(tree: seq<Resource>)
    ensures HasAdjacentDuplicate(Sort(tree, ByPath())) <==> SharePath(tree)
  {
    var rs := Sort(tree, ByPath());
    SortPermutes(tree, ByPath());
    if SharePath(tree) && !HasAdjacentDuplicate(rs) {
      SortedPathsDistinct(tree);
      DistinctEitherWay(rs, tree);
    }
    if HasAdjacentDuplicate(rs) && !SharePath(tree) {
      DistinctEitherWay(tree, rs);
    }
  }

  /** Whether paths differ does not depend on the order of the resources. */
  lemma DistinctEitherWay(a: seq<Resource>, b: seq<Resource>)
    requires multiset(a) == multiset(b) && DistinctPaths(a)
    ensures DistinctPaths(b)
  {
    forall i, j | 0 <= i < j < |b|
      ensures b[i].path != b[j].path
    {
      assert b[i] in multiset(a) && b[j] in multiset(a);
      var k :| 0 <= k < |a| && a[k] == b[i];
      var l :| 0 <= l < |a| && a[l] == b[j];
      if k == l {
        TwiceInside(b, i, j);
        OnceInside(a, k);
      }
    }
  }

  lemma OnceInside(a: seq<Resource>, k: nat)
    requires DistinctPaths(a) && k < |a|
    ensures multiset(a)[a[k]] == 1
  {
    assert a == a[..k] + [a[k]] + a[k + 1..];
    assert a[k] !in a[..k] && a[k] !in a[k + 1..];
  }

  // ----------------------------------------------------------- when packing succeeds

  /** The manifest of these resources, which are those of the tree in path order. */
  predicate InOrder(rs: seq<Resource>, tree: seq<Resource>) {
    multiset(rs) == multiset(tree) && forall i, j :: 0 <= i < j < |rs| ==> LexLeq(rs[i].path, rs[j].path)
  }

  lemma HeadsAgree(a: seq<Resource>, b: seq<Resource>)
    requires InOrder(a, b) && InOrder(b, b) && DistinctPaths(a) && a != []
    ensures b != [] && a[0] == b[0]
  {
    assert a[0] in multiset(b);
    var k :| 0 <= k < |b| && b[k] == a[0];
    assert b[0] in multiset(a);
    var l :| 0 <= l < |a| && a[l] == b[0];
    if k > 0 && l > 0 {
      assert LexLeq(a[0].path, a[l].path) && LexLeq(b[0].path, b[k].path);
      LexAntisymmetric(a[0].path, b[0].path);
    }
  }

  lemma TailsInOrder(a: seq<Resource>, b: seq<Resource>)
    requires InOrder(a, b) && a != [] && b != [] && a[0] == b[0]
    ensures InOrder(a[1..], b[1..])
  {
    assert a == [a[0]] + a[1..] && b == [b[0]] + b[1..];
    assert multiset(a[1..]) == multiset(a) - multiset{a[0]} == multiset(b[1..]);
  }

  lemma {:induction false} OrderIsUnique(a: seq<Resource>, b: seq<Resource>)
    requires InOrder(a, b) && InOrder(b, b) && DistinctPaths(a)
    ensures a == b
    decreases |a|
  {
    if a != [] {
      HeadsAgree(a, b);
      TailsInOrder(a, b);
      TailsInOrder(b, b);
      hide InOrder;
      OrderIsUnique(a[1..], b[1..]);
      assert a == [a[0]] + a[1..] && b == [b[0]] + b[1..];
    } else {
      assert |multiset(b)| == |b|;
    }
  }

  lemma OrderedIsSorted(rs: seq<Resource>, tree: seq<Resource>)
    requires InOrder(rs, tree) && !SharePath(tree)
    ensures Sort(tree, ByPath()) == rs && DistinctPaths(rs)
  {
    var sorted := Sort(tree, ByPath());
    SortPermutes(tree, ByPath());
    ByPathIsPreorder();
    SortSorts(tree, ByPath());
    DistinctEitherWay(tree, rs);
    DistinctEitherWay(tree, sorted);
    forall i, j | 0 <= i < j < |sorted|
      ensures LexLeq(sorted[i].path, sorted[j].path)
    {
      assert ByPath()(sorted[i], sorted[j]);
    }
    forall i, j | 0 <= i < j < |rs|
      ensures LexLeq(rs[i].path, rs[j].path)
    {
    }
    OrderIsUnique(sorted, rs);
  }

  /** How many bytes the pack of these ordered resources takes. */
  function PackSize(rs: seq<Resource>, meta: Bytes, c: Codec): nat {
    12 + 6 * (|rs| + 2) + |c.encode(meta, c.digest(ContentStream(rs)), EntriesOf(rs))| + TotalLength(rs)
  }

  lemma WrittenSize(rs: seq<Resource>, meta: Bytes, c: Codec)
    ensures |Layout(PartsOf(rs, meta, c))| == PackSize(rs, meta, c)
  {
    var parts := PartsOf(rs, meta, c);
    ContentLength(rs);
    ConcatHead(ManifestOf(rs, meta, c), Contents(rs));
    assert |Concat(parts)| == |ManifestOf(rs, meta, c)| + TotalLength(rs);
  }

  lemma NothingPatched(rs: seq<Resource>)
    ensures PatchAll(rs, [], None, []) == rs && !SomeMissing(rs, None, [])
  {
  }

  /** A tree packs in full exactly when it holds a file, no two files share a path, there are
      at most 65534, the metadata is an object and the pack stays below 4 GiB; the pack is
      then the layout of the manifest and the contents in path order. */
  lemma FullPackSucceedsIff(tree: seq<Resource>, rs: seq<Resource>, meta: Option<Bytes>, c: Codec)
    requires InOrder(rs, tree)
    ensures FullPack(tree, meta, c).Ok? <==>
            && tree != [] && !SharePath(tree) && |tree| <= 65534 && meta.Some?
            && PackSize(rs, meta.value, c) <= 0xFFFF_FFFF
    ensures FullPack(tree, meta, c).Ok? ==>
              FullPack(tree, meta, c).value
              == Packed(Layout([c.encode(meta.value, c.digest(ContentStream(rs)), EntriesOf(rs))] + Contents(rs)),
                        c.digest(ContentStream(rs)))
  {
    SharedPathShows(tree);
    SortLength(tree);
    hide Sort, ContentStream, Layout, HasAdjacentDuplicate, SharePath, EntriesOf, Contents, TotalLength;
    if !SharePath(tree) {
      OrderedIsSorted(rs, tree);
      hide InOrder, DistinctPaths;
      NothingPatched(rs);
      if meta.Some? {
        WrittenSize(rs, meta.value, c);
      }
    }
  }

  /** The duplicate-path error means two files share a path, whatever else is wrong, and the
      empty error means there is no file. */
  lemma TreeErrorsIff(tree: seq<Resource>, meta: Option<Bytes>, base: Option<Base>, prefixes: seq<Bytes>, c: Codec)
    ensures PackSpec(tree, meta, base, prefixes, c) == Err(DuplicatePath) <==> SharePath(tree)
    ensures PackSpec(tree, meta, base, prefixes, c) == Err(Empty) <==> tree == []
  {
    SharedPathShows(tree);
    SortLength(tree);
    BaseErrors(base, prefixes, c);
    hide Sort, ContentStream, OpenBase;
  }

  lemma BaseErrors(base: Option<Base>, prefixes: seq<Bytes>, c: Codec)
    ensures OpenBase(base, prefixes, c).Err? ==>
              OpenBase(base, prefixes, c).error in {BaseDigestRequired, BaseDrift, BaseInvalid, ChangedPrefixRequired}
  {
    hide TableOf, ReadOffsets;
  }

  /** A base can be used exactly when there is none, or when it parses, has the expected
      digest, and some prefix is named as changed. */
  lemma BaseUsableIff(base: Option<Base>, prefixes: seq<Bytes>, c: Codec)
    ensures OpenBase(base, prefixes, c).Ok? <==>
            base.None? || (&& base.value.expected == Some(c.digest(base.value.bytes))
                           && Entries(base.value.bytes, c).Ok? && prefixes != [])
    ensures OpenBase(base, prefixes, c).Ok? ==>
              OpenBase(base, prefixes, c).value
              == if base.None? then None else Some(Entries(base.value.bytes, c).value)
  {
  }

  /** What the pack gets for a file: its own content if its path is under a changed prefix,
      and otherwise the base's bytes under the same path. */
  ghost predicate Resolves(r: Resource, into: Resource, base: Bytes, table: Table, prefixes: seq<Bytes>) {
    && into.path == r.path
    && (MatchesPrefix(r.path, prefixes) ==> into == r)
    && (!MatchesPrefix(r.path, prefixes) ==>
          && r.path in table
          && table[r.path].offset + table[r.path].length <= |base|
          && into.content == base[table[r.path].offset..table[r.path].offset + table[r.path].length])
  }

  /** An incremental pack succeeds exactly when the base can be used, every file outside the
      changed prefixes is in the base, and the tree so resolved packs in full; it is then
      that full pack. */
  lemma IncrementalSucceedsIff(tree: seq<Resource>, resolved: seq<Resource>, meta: Option<Bytes>, base: Base,
                               prefixes: seq<Bytes>, c: Codec)
    requires OpenBase(Some(base), prefixes, c).Ok? ==>
               && |resolved| == |tree|
               && forall i :: 0 <= i < |tree| && (MatchesPrefix(tree[i].path, prefixes)
                                                  || tree[i].path in Entries(base.bytes, c).value) ==>
                    Resolves(tree[i], resolved[i], base.bytes, Entries(base.bytes, c).value, prefixes)
    ensures var r := PackSpec(tree, meta, Some(base), prefixes, c);
            && (r.Ok? <==>
                && base.expected == Some(c.digest(base.bytes)) && Entries(base.bytes, c).Ok? && prefixes != []
                && (forall i :: 0 <= i < |tree| ==> MatchesPrefix(tree[i].path, prefixes)
                                                    || tree[i].path in Entries(base.bytes, c).value)
                && FullPack(resolved, meta, c).Ok?)
            && (r.Ok? ==> r == FullPack(resolved, meta, c))
  {
    hide PackSpec, Entries, OpenBase;
    BaseUsableIff(Some(base), prefixes, c);
    IncrementalPacksPatchedTree(tree, meta, base, prefixes, c);
    var usable := OpenBase(Some(base), prefixes, c);
    if usable.Ok? && !SomeMissing(tree, usable.value, prefixes) {
      assert PatchAll(tree, base.bytes, usable.value, prefixes) == resolved;
    }
  }

  /** The pack does not depend on the order in which the files were found. */
  lemma PackIgnoresTreeOrder(a: seq<Resource>, b: seq<Resource>, meta: Option<Bytes>, base: Option<Base>,
                             prefixes: seq<Bytes>, c: Codec)
    requires multiset(a) == multiset(b)
    ensures PackSpec(a, meta, base, prefixes, c) == PackSpec(b, meta, base, prefixes, c)
  {
    TreeErrorsIff(a, meta, base, prefixes, c);
    TreeErrorsIff(b, meta, base, prefixes, c);
    if SharePath(a) || SharePath(b) {
      if !SharePath(a) {
        DistinctEitherWay(a, b);
      }
      if !SharePath(b) {
        DistinctEitherWay(b, a);
      }
    } else {
      var rs := Sort(a, ByPath());
      SortPermutes(a, ByPath());
      ByPathIsPreorder();
      SortSorts(a, ByPath());
      forall i, j | 0 <= i < j < |rs|
        ensures LexLeq(rs[i].path, rs[j].path)
      {
        assert ByPath()(rs[i], rs[j]);
      }
      OrderedIsSorted(rs, b);
    }
  }

  // -------------------------------------------------------------- changed prefixes

  const NO_BYTES: Bytes := []

  /** The names between the slashes of a path. */
  function Components(path: Bytes): (r: seq<Bytes>)
    ensures r != []
  {
    if path == [] then [NO_BYTES]
    else
      var rest := Components(path[1..]);
      if path[0] == SLASH then [NO_BYTES] + rest else [[path[0]] + rest[0]] + rest[1..]
  }

  /** A prefix covers a path exactly when its names are the first names of the path: never
      part of a name. */
  lemma {:induction false} PrefixIsComponents(path: Bytes, prefix: Bytes)
    ensures path == prefix || prefix + [SLASH] <= path <==> Components(prefix) <= Components(path)
  {
    if prefix == [] {
      if path != [] && path[0] != SLASH {
        assert Components(path)[0] != NO_BYTES;
      }
    } else if path == [] {
      assert |Components(prefix)| > 1 || Components(prefix)[0] != NO_BYTES;
    } else {
      PrefixIsComponents(path[1..], prefix[1..]);
      assert prefix == [prefix[0]] + prefix[1..] && path == [path[0]] + path[1..];
      assert prefix + [SLASH] == [prefix[0]] + (prefix[1..] + [SLASH]);
      var p := Components(prefix[1..]);
      var q := Components(path[1..]);
      if path[0] == prefix[0] {
        assert prefix + [SLASH] <= path <==> prefix[1..] + [SLASH] <= path[1..];
        SameStart(p, q, path[0]);
      } else if prefix[0] != SLASH && path[0] != SLASH {
        assert ([prefix[0]] + p[0])[0] != ([path[0]] + q[0])[0];
      }
    }
  }

  lemma SameStart(p: seq<Bytes>, q: seq<Bytes>, b: Byte)
    requires p != [] && q != []
    ensures p <= q <==> [NO_BYTES] + p <= [NO_BYTES] + q
    ensures p <= q <==> [[b] + p[0]] + p[1..] <= [[b] + q[0]] + q[1..]
  {
    assert ([NO_BYTES] + p)[1..] == p && ([NO_BYTES] + q)[1..] == q;
    assert p == [p[0]] + p[1..] && q == [q[0]] + q[1..];
    assert ([b] + p[0])[1..] == p[0] && ([b] + q[0])[1..] == q[0];
    var bp := [[b] + p[0]] + p[1..];
    var bq := [[b] + q[0]] + q[1..];
    if p <= q {
      assert q[0] == p[0] && q[..|p|] == p;
      assert bq[..|bp|] == bp;
    }
    if bp <= bq {
      assert bq[..|bp|] == bp && bq[0] == bp[0];
      assert q[0] == p[0] && bq[1..|bp|] == bp[1..];
      assert q[..|p|] == p;
    }
  }

  /** So a path counts as changed exactly when some prefix covers it name by name. */
  lemma ChangedIff(path: Bytes, prefixes: seq<Bytes>)
    ensures MatchesPrefix(path, prefixes) <==>
            exists k :: 0 <= k < |prefixes| && Components(prefixes[k]) <= Components(path)
  {
    forall k | 0 <= k < |prefixes|
      ensures path == prefixes[k] || prefixes[k] + [SLASH] <= path <==> Components(prefixes[k]) <= Components(path)
    {
      PrefixIsComponents(path, prefixes[k]);
    }
  }

  // -------------------------------------------------------------- the content hash

  lemma PieceSplits(before: Bytes, after: Bytes, p: Bytes, q: Bytes, x: Bytes, y: Bytes)
    requires |before| == |after| && |p| == |q| && |x| == |y|
    requires before + p + [0] + x == after + q + [0] + y
    ensures before == after && p == q && x == y
  {
    var l := before + p + [0] + x;
    var r := after + q + [0] + y;
    assert l[..|before|] == before && r[..|before|] == after;
    assert l[|before|..|before| + |p|] == p && r[|before|..|before| + |p|] == q;
    assert l[|before| + |p| + 1..] == x && r[|before| + |p| + 1..] == y;
  }

  /** The stream that is hashed covers every path and content: with the same sizes, equal
      streams mean equal resources. */
  lemma {:induction false} StreamCoversContent(a: seq<Resource>, b: seq<Resource>)
    requires |a| == |b|
    requires forall i :: 0 <= i < |a| ==> |a[i].path| == |b[i].path| && |a[i].content| == |b[i].content|
    ensures ContentStream(a) == ContentStream(b) <==> a == b
  {
    if a != [] && ContentStream(a) == ContentStream(b) {
      var n := |a| - 1;
      StreamLength(a[..n], b[..n]);
      PieceSplits(ContentStream(a[..n]), ContentStream(b[..n]), a[n].path, b[n].path, a[n].content, b[n].content);
      hide ContentStream;
      StreamCoversContent(a[..n], b[..n]);
      assert a == a[..n] + [a[n]] && b == b[..n] + [b[n]];
    }
  }

  lemma {:induction false} StreamLength(a: seq<Resource>, b: seq<Resource>)
    requires |a| == |b|
    requires forall i :: 0 <= i < |a| ==> |a[i].path| == |b[i].path| && |a[i].content| == |b[i].content|
    ensures |ContentStream(a)| == |ContentStream(b)|
  {
    if a != [] {
      StreamLength(a[..|a| - 1], b[..|a| - 1]);
    }
  }

  /** Without equal sizes they need not: the stream does not say where a content ends. */
  lemma StreamIsAmbiguous()
    ensures var one := [Resource([97], [98, 0, 99])];
            var two := [Resource([97], []), Resource([98], [99])];
            one != two && ContentStream(one) == ContentStream(two)
  {
    var one := [Resource([97], [98, 0, 99])];
    var two := [Resource([97], []), Resource([98], [99])];
    assert one[..0] == [] && two[..1] == [two[0]] && [two[0]][..0] == [];
    assert ContentStream([two[0]]) == [97, 0];
    assert ContentStream(one) == [97, 0, 98, 0, 99];
    assert ContentStream(two) == [97, 0] + [98] + [0] + [99];
  }

  // ------------------------------------------------------------ header and index

  /** The header of a written pack: version 5, no encoding, the number of parts, no aliases. */
  lemma HeaderSays(parts: seq<Bytes>)
    requires |parts| <= U16_MAX
    ensures |Layout(parts)| >= 12
    ensures FromLe32(Layout(parts)[0..4]) == 5 && Layout(parts)[4..8] == [0, 0, 0, 0]
    ensures FromLe16(Layout(parts)[8..10]) == |parts| && Layout(parts)[10..12] == [0, 0]
  {
    var rest := Index(PartOffsets(parts)) + Concat(parts);
    assert Layout(parts) == Header(|parts|) + rest;
    HeaderReadsBack(|parts|, rest);
    assert Le16(0) == [0, 0];
  }

  lemma {:induction false} RowIdAt(offsets: seq<nat>, n: nat, k: nat)
    requires k < n <= |offsets|
    ensures IndexRows(offsets, n)[6 * k..6 * k + 2] == Le16(k + 1)
  {
    var before := IndexRows(offsets, n - 1);
    var row := Le16(n) + Le32(offsets[n - 1]);
    assert IndexRows(offsets, n) == before + row;
    if k < n - 1 {
      RowIdAt(offsets, n - 1, k);
      assert (before + row)[6 * k..6 * k + 2] == before[6 * k..6 * k + 2];
    } else {
      assert (before + row)[6 * k..6 * k + 2] == row[0..2] == Le16(n);
    }
  }

  /** Rows are numbered from 1, and the terminator has id 0. */
  lemma IndexIds(parts: seq<Bytes>, k: nat)
    requires k <= |parts| <= U16_MAX
    ensures |Layout(parts)| >= 12 + 6 * (k + 1)
    ensures FromLe16(Layout(parts)[12 + 6 * k..12 + 6 * k + 2]) == if k < |parts| then k + 1 else 0
  {
    var offsets := PartOffsets(parts);
    var rows := IndexRows(offsets, |parts|);
    var end := Le16(0) + Le32(offsets[|parts|]);
    OffsetsInRange(parts, 0);
    SliceMiddle(Header(|parts|), Index(offsets), Concat(parts), 6 * k, 6 * k + 2);
    assert Index(offsets) == rows + end;
    if k < |parts| {
      RowIdAt(offsets, |parts|, k);
      assert (rows + end)[6 * k..6 * k + 2] == rows[6 * k..6 * k + 2];
      Le16RoundTrip(k + 1);
    } else {
      assert (rows + end)[6 * k..6 * k + 2] == end[0..2] == Le16(0);
      Le16RoundTrip(0);
    }
  }

  /** The id a manifest gives a path is the id of the index row at which the path's content
      starts: the manifest itself has id 1. */
  lemma ManifestIdsNameRows(rs: seq<Resource>, meta: Bytes, c: Codec, i: nat)
    requires i < |rs| && |rs| + 1 <= U16_MAX && |Layout(PartsOf(rs, meta, c))| <= U32_MAX
    ensures var bytes := Layout(PartsOf(rs, meta, c)); var k := i + 1;
            && EntriesOf(rs)[i].path == rs[i].path
            && |bytes| >= 12 + 6 * (k + 1)
            && EntriesOf(rs)[i].id == FromLe16(bytes[12 + 6 * k..12 + 6 * k + 2])
            && var start := FromLe32(bytes[12 + 6 * k + 2..12 + 6 * k + 6]);
               start + |rs[i].content| <= |bytes| && bytes[start..start + |rs[i].content|] == rs[i].content
  {
    var parts := PartsOf(rs, meta, c);
    IndexIds(parts, i + 1);
    RowReadsBack(parts, i + 1);
    PartsReadBack(parts, i + 1);
    assert parts[i + 1] == rs[i].content;
  }

  // ------------------------------------------------------------------ parsing a base

  function OffsetAt(b: Bytes, k: nat): nat
    requires |b| >= 12 + 6 * (k + 1)
  {
    FromLe32(b[12 + 6 * k + 2..12 + 6 * k + 6])
  }

  /** A well formed header and index: version 5, at least one part, every row there, offsets
      that never fall and stay within the file. */
  predicate WellFormed(b: Bytes) {
    && |b| >= 12 && FromLe32(b[0..4]) == 5 && FromLe16(b[8..10]) >= 1
    && |b| >= 12 + 6 * (FromLe16(b[8..10]) + 1)
    && (forall k :: 0 <= k < FromLe16(b[8..10]) ==> OffsetAt(b, k) <= OffsetAt(b, k + 1))
    && OffsetAt(b, FromLe16(b[8..10])) <= |b|
  }

  lemma OffsetsReadIff(b: Bytes)
    ensures ReadOffsets(b).Some? <==> WellFormed(b)
    ensures ReadOffsets(b).Some? ==>
              && |ReadOffsets(b).value| == FromLe16(b[8..10]) + 1
              && forall k :: 0 <= k <= FromLe16(b[8..10]) ==> ReadOffsets(b).value[k] == OffsetAt(b, k)
  {
    if |b| >= 12 && |b| >= 12 + 6 * (FromLe16(b[8..10]) + 1) {
      var count := FromLe16(b[8..10]);
      var offsets := RawOffsets(b, count + 1);
      assert forall k :: 0 <= k <= count ==> offsets[k] == OffsetAt(b, k);
      assert (exists i :: 0 <= i < count && offsets[i] > offsets[i + 1])
             <==> !(forall k :: 0 <= k < count ==> OffsetAt(b, k) <= OffsetAt(b, k + 1));
    }
  }

  /** A base parses exactly when its header and index are well formed and the bytes of its
      first part decode into one path for each other part. */
  lemma ParsesIff(b: Bytes, c: Codec)
    ensures Entries(b, c).Ok? <==>
            && WellFormed(b)
            && OffsetAt(b, 0) <= OffsetAt(b, 1) <= |b|
            && var manifest := c.decode(b[OffsetAt(b, 0)..OffsetAt(b, 1)]);
               && manifest.Paths? && |manifest.paths| + 1 == FromLe16(b[8..10])
               && forall k :: 0 <= k < |manifest.paths| ==> manifest.paths[k].Some?
  {
    OffsetsReadIff(b);
    hide ReadOffsets, TableOf;
    if WellFormed(b) {
      assert ReadOffsets(b).value[0] == OffsetAt(b, 0) && ReadOffsets(b).value[1] == OffsetAt(b, 1);
    }
  }
}
