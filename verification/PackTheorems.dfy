/** Packs read back exactly, and incremental packing is full packing. */
module PackTheorems {
  import opened Common
  import opened Ordering
  import opened PackFormat
  import opened Pack

  // ------------------------------------------------------------------ sorted paths

  lemma ByPathIsPreorder()
    ensures TotalPreorder(ByPath())
  {
    forall a: Resource, b: Resource
      ensures ByPath()(a, b) || ByPath()(b, a)
    {
      LexTotal(a.path, b.path);
    }
    forall a: Resource, b: Resource, d: Resource | ByPath()(a, b) && ByPath()(b, d)
      ensures ByPath()(a, d)
    {
      LexTransitive(a.path, b.path, d.path);
    }
  }

  ghost predicate DistinctPaths(rs: seq<Resource>) {
    forall i, j :: 0 <= i < j < |rs| ==> rs[i].path != rs[j].path
  }

  /** Comparing neighbours after sorting finds every duplicate. */
  lemma SortedPathsDistinct(tree: seq<Resource>)
    requires !HasAdjacentDuplicate(Sort(tree, ByPath()))
    ensures DistinctPaths(Sort(tree, ByPath()))
  {
    var rs := Sort(tree, ByPath());
    ByPathIsPreorder();
    SortSorts(tree, ByPath());
    forall i, j | 0 <= i < j < |rs|
      ensures rs[i].path != rs[j].path
    {
      if rs[i].path == rs[j].path {
        assert ByPath()(rs[i], rs[i + 1]);
        assert i + 1 < j ==> ByPath()(rs[i + 1], rs[j]);
        LexAntisymmetric(rs[i].path, rs[i + 1].path);
        assert false;
      }
    }
  }

  // --------------------------------------------------------------- reading a pack

  lemma {:induction false} TableLookup(paths: seq<Option<Bytes>>, offsets: seq<nat>, n: nat, k: nat)
    requires n <= |paths| && |offsets| == |paths| + 2
    requires forall i :: 0 <= i < |paths| ==> paths[i].Some?
    requires forall i, j :: 0 <= i < j < |paths| ==> paths[i] != paths[j]
    requires forall i, j :: 0 <= i <= j < |offsets| ==> offsets[i] <= offsets[j]
    requires k < n
    ensures paths[k].value in TableOf(paths, offsets, n)
    ensures TableOf(paths, offsets, n)[paths[k].value] == Range(offsets[k + 1], offsets[k + 2] - offsets[k + 1])
  {
    if k < n - 1 {
      TableLookup(paths, offsets, n - 1, k);
    }
  }

  lemma {:induction false} TableKeys(paths: seq<Option<Bytes>>, offsets: seq<nat>, n: nat)
    requires n <= |paths| && |offsets| == |paths| + 2
    requires forall i :: 0 <= i < |paths| ==> paths[i].Some?
    requires forall i, j :: 0 <= i < j < |paths| ==> paths[i] != paths[j]
    requires forall i, j :: 0 <= i <= j < |offsets| ==> offsets[i] <= offsets[j]
    ensures |TableOf(paths, offsets, n)| == n
    ensures forall p :: p in TableOf(paths, offsets, n) ==> exists k :: 0 <= k < n && paths[k] == Some(p)
  {
    if n > 0 {
      TableKeys(paths, offsets, n - 1);
      var before := TableOf(paths, offsets, n - 1);
      assert paths[n - 1].value !in before;
    }
  }

  /** `table` describes `bytes` as holding exactly the resources `rs`. */
  ghost predicate Describes(table: Table, bytes: Bytes, rs: seq<Resource>) {
    && |table| == |rs|
    && (forall p :: p in table ==> exists k :: 0 <= k < |rs| && rs[k].path == p)
    && (forall k :: 0 <= k < |rs| ==> rs[k].path in table && Holds(bytes, table[rs[k].path], rs[k].content))
  }

  predicate Holds(bytes: Bytes, range: Range, content: Bytes) {
    range.offset + range.length <= |bytes| && bytes[range.offset..range.offset + range.length] == content
  }

  lemma WrittenOffsets(rs: seq<Resource>, meta: Option<Bytes>, c: Codec)
    requires Lawful(c) && Written(rs, meta, c).Ok? && |rs| + 1 <= U16_MAX
    ensures var parts := PartsOf(rs, meta.value, c); var bytes := Written(rs, meta, c).value.bytes;
            && ReadOffsets(bytes) == Some(PartOffsets(parts))
            && c.decode(bytes[PartOffsets(parts)[0]..PartOffsets(parts)[1]]) == Paths(PathsOf(EntriesOf(rs)))
  {
    var parts := PartsOf(rs, meta.value, c);
    OffsetsReadBack(parts);
    PartsReadBack(parts, 0);
  }

  /** Entry `k` of a pack, which is part `k + 1`, sits between its two offsets. */
  predicate EntryAt(bytes: Bytes, offsets: seq<nat>, k: nat, content: Bytes) {
    && k + 2 < |offsets| && offsets[k + 1] <= offsets[k + 2] <= |bytes|
    && bytes[offsets[k + 1]..offsets[k + 2]] == content
  }

  lemma PathsAreDistinct(rs: seq<Resource>)
    requires DistinctPaths(rs)
    ensures forall i :: 0 <= i < |rs| ==> PathsOf(EntriesOf(rs))[i] == Some(rs[i].path)
    ensures forall i, j :: 0 <= i < j < |rs| ==> PathsOf(EntriesOf(rs))[i] != PathsOf(EntriesOf(rs))[j]
  {
    forall i | 0 <= i < |rs|
      ensures PathsOf(EntriesOf(rs))[i] == Some(rs[i].path)
    {
      assert EntriesOf(rs)[i].path == rs[i].path;
    }
  }

  lemma EntryHolds(bytes: Bytes, offsets: seq<nat>, k: nat, content: Bytes)
    requires EntryAt(bytes, offsets, k, content)
    ensures Holds(bytes, Range(offsets[k + 1], offsets[k + 2] - offsets[k + 1]), content)
  {
  }

  /** A table built from sound offsets describes the bytes between them. */
  lemma TableDescribes(rs: seq<Resource>, offsets: seq<nat>, bytes: Bytes)
    requires DistinctPaths(rs) && |offsets| == |rs| + 2
    requires forall i, j :: 0 <= i <= j < |offsets| ==> offsets[i] <= offsets[j]
    requires forall k :: 0 <= k < |rs| ==> EntryAt(bytes, offsets, k, rs[k].content)
    ensures forall i :: 0 <= i < |rs| ==> PathsOf(EntriesOf(rs))[i].Some?
    ensures Describes(TableOf(PathsOf(EntriesOf(rs)), offsets, |rs|), bytes, rs)
  {
    hide TableOf, PathsOf, EntriesOf, DistinctPaths, EntryAt, Holds;
    PathsAreDistinct(rs);
    var paths := PathsOf(EntriesOf(rs));
    TableKeys(paths, offsets, |rs|);
    forall k | 0 <= k < |rs|
      ensures rs[k].path in TableOf(paths, offsets, |rs|)
      ensures Holds(bytes, TableOf(paths, offsets, |rs|)[rs[k].path], rs[k].content)
    {
      TableLookup(paths, offsets, |rs|, k);
      EntryHolds(bytes, offsets, k, rs[k].content);
    }
    forall p | p in TableOf(paths, offsets, |rs|)
      ensures exists k :: 0 <= k < |rs| && rs[k].path == p
    {
      var k :| 0 <= k < |rs| && paths[k] == Some(p);
      assert rs[k].path == p;
    }
  }

  lemma WrittenReadsBack(rs: seq<Resource>, meta: Option<Bytes>, c: Codec)
    requires Lawful(c) && Written(rs, meta, c).Ok? && |rs| + 1 <= U16_MAX && DistinctPaths(rs)
    ensures var bytes := Written(rs, meta, c).value.bytes;
            Entries(bytes, c).Ok? && Describes(Entries(bytes, c).value, bytes, rs)
  {
    hide Layout, PartOffsets, ReadOffsets, ContentStream, Describes, TableOf;
    WrittenOffsets(rs, meta, c);
    var bytes := Written(rs, meta, c).value.bytes;
    var parts := PartsOf(rs, meta.value, c);
    var offsets := ReadOffsets(bytes).value;
    forall k | 0 <= k < |rs|
      ensures EntryAt(bytes, offsets, k, rs[k].content)
    {
      PartsReadBack(parts, k + 1);
      assert parts[k + 1] == rs[k].content;
    }
    TableDescribes(rs, offsets, bytes);
  }

  lemma FullPackIsWritten(tree: seq<Resource>, meta: Option<Bytes>, c: Codec)
    requires FullPack(tree, meta, c).Ok?
    ensures FullPack(tree, meta, c) == Written(Sort(tree, ByPath()), meta, c)
    ensures DistinctPaths(Sort(tree, ByPath())) && |tree| + 1 <= U16_MAX
  {
    hide Written, Sort;
    var rs := Sort(tree, ByPath());
    assert PatchAll(rs, [], None, []) == rs;
    SortedPathsDistinct(tree);
    SortPermutes(tree, ByPath());
  }

  /** `table` describes `bytes` as holding exactly the resources of an unordered tree. */
  ghost predicate DescribesTree(table: Table, bytes: Bytes, tree: seq<Resource>) {
    && |table| == |tree|
    && (forall p :: p in table ==> exists r :: r in tree && r.path == p)
    && (forall r :: r in tree ==> r.path in table && Holds(bytes, table[r.path], r.content))
  }

  /** Reading a pack back: one entry per packed path, each range slicing out that
      resource's bytes, for every tree that packs at all. */
  lemma PackReadsBack(tree: seq<Resource>, meta: Option<Bytes>, c: Codec)
    requires Lawful(c) && FullPack(tree, meta, c).Ok?
    ensures var bytes := FullPack(tree, meta, c).value.bytes;
            Entries(bytes, c).Ok? && DescribesTree(Entries(bytes, c).value, bytes, tree)
  {
    hide PackSpec, Written, Entries, Sort;
    FullPackIsWritten(tree, meta, c);
    SortPermutes(tree, ByPath());
    SortMembers(tree, ByPath());
    var rs := Sort(tree, ByPath());
    WrittenReadsBack(rs, meta, c);
    var bytes := FullPack(tree, meta, c).value.bytes;
    var table := Entries(bytes, c).value;
    forall p | p in table
      ensures exists r :: r in tree && r.path == p
    {
      var k :| 0 <= k < |rs| && rs[k].path == p;
      assert rs[k] in tree;
    }
    forall r | r in tree
      ensures r.path in table && Holds(bytes, table[r.path], r.content)
    {
      assert r in rs;
      var k :| 0 <= k < |rs| && rs[k] == r;
    }
  }

  // -------------------------------------------------------------- incremental packing

  lemma {:induction false} InsertCommutes(x: Resource, rs: seq<Resource>, base: Bytes, table: Option<Table>,
                                          prefixes: seq<Bytes>)
    ensures Insert(Patch(x, base, table, prefixes), PatchAll(rs, base, table, prefixes), ByPath())
            == PatchAll(Insert(x, rs, ByPath()), base, table, prefixes)
  {
    var ps := PatchAll(rs, base, table, prefixes);
    if rs != [] && !ByPath()(x, rs[0]) {
      InsertCommutes(x, rs[1..], base, table, prefixes);
      assert ps[1..] == PatchAll(rs[1..], base, table, prefixes);
    }
  }

  /** Patching keeps paths, so it commutes with sorting by path. */
  lemma {:induction false} SortCommutes(tree: seq<Resource>, base: Bytes, table: Option<Table>, prefixes: seq<Bytes>)
    ensures Sort(PatchAll(tree, base, table, prefixes), ByPath())
            == PatchAll(Sort(tree, ByPath()), base, table, prefixes)
  {
    if tree != [] {
      SortCommutes(tree[1..], base, table, prefixes);
      InsertCommutes(tree[0], Sort(tree[1..], ByPath()), base, table, prefixes);
      assert PatchAll(tree, base, table, prefixes)[1..] == PatchAll(tree[1..], base, table, prefixes);
    }
  }

  lemma MissingIsOrderFree(tree: seq<Resource>, table: Option<Table>, prefixes: seq<Bytes>)
    ensures SomeMissing(Sort(tree, ByPath()), table, prefixes) == SomeMissing(tree, table, prefixes)
  {
    SortMembers(tree, ByPath());
    var rs := Sort(tree, ByPath());
    if SomeMissing(tree, table, prefixes) {
      var i :| 0 <= i < |tree| && FromBase(tree[i].path, table, prefixes) && tree[i].path !in table.value;
      assert tree[i] in rs;
    }
    if SomeMissing(rs, table, prefixes) {
      var i :| 0 <= i < |rs| && FromBase(rs[i].path, table, prefixes) && rs[i].path !in table.value;
      assert rs[i] in tree;
    }
  }

  /** Incremental packing is full packing of the tree patched with the base's bytes,
      errors included, unless the base is unusable or lacks an entry, when it fails. */
  lemma IncrementalPacksPatchedTree(tree: seq<Resource>, meta: Option<Bytes>, base: Base, prefixes: seq<Bytes>,
                                    c: Codec)
    ensures var table := OpenBase(Some(base), prefixes, c);
            var packed := PackSpec(tree, meta, Some(base), prefixes, c);
            if table.Err? || SomeMissing(tree, table.value, prefixes) then packed.Err?
            else packed == FullPack(PatchAll(tree, base.bytes, table.value, prefixes), meta, c)
  {
    hide Written, Entries, Sort;
    if OpenBase(Some(base), prefixes, c).Err? {
      return;
    }
    var table := OpenBase(Some(base), prefixes, c).value;
    MissingIsOrderFree(tree, table, prefixes);
    SortCommutes(tree, base.bytes, table, prefixes);
    var rs := Sort(tree, ByPath());
    var patched := PatchAll(rs, base.bytes, table, prefixes);
    assert PatchAll(patched, [], None, []) == patched;
    assert forall i :: 0 <= i < |rs| ==> patched[i].path == rs[i].path;
    assert HasAdjacentDuplicate(patched) == HasAdjacentDuplicate(rs);
  }

  /** A base that is the full pack of `prior`, with its own digest. */
  function BaseOf(bytes: Bytes, c: Codec): Base {
    Base(bytes, Some(c.digest(bytes)))
  }

  /** Outside the changed prefixes the new tree repeats the old one. */
  ghost predicate AgreesOutside(prior: seq<Resource>, next: seq<Resource>, prefixes: seq<Bytes>) {
    forall r :: r in next && !MatchesPrefix(r.path, prefixes) ==> r in prior
  }

  lemma BaseOpens(prior: seq<Resource>, priorMeta: Option<Bytes>, prefixes: seq<Bytes>, c: Codec)
    requires Lawful(c) && FullPack(prior, priorMeta, c).Ok? && prefixes != []
    ensures var bytes := FullPack(prior, priorMeta, c).value.bytes;
            && Entries(bytes, c).Ok?
            && OpenBase(Some(BaseOf(bytes, c)), prefixes, c) == Ok(Some(Entries(bytes, c).value))
            && DescribesTree(Entries(bytes, c).value, bytes, prior)
  {
    hide PackSpec, Entries, DescribesTree;
    PackReadsBack(prior, priorMeta, c);
  }

  lemma AgreementPatchesNothing(prior: seq<Resource>, tree: seq<Resource>, bytes: Bytes, table: Table,
                                prefixes: seq<Bytes>)
    requires DescribesTree(table, bytes, prior) && AgreesOutside(prior, tree, prefixes)
    ensures !SomeMissing(tree, Some(table), prefixes) && PatchAll(tree, bytes, Some(table), prefixes) == tree
  {
    forall i | 0 <= i < |tree|
      ensures FromBase(tree[i].path, Some(table), prefixes) ==>
                tree[i].path in table && Patch(tree[i], bytes, Some(table), prefixes) == tree[i]
    {
      assert tree[i] in tree;
    }
  }

  /** Two full packs with the same bytes hold the same resources. */
  lemma PackDeterminesContent(a: seq<Resource>, b: seq<Resource>, meta: Option<Bytes>, c: Codec)
    requires Lawful(c) && FullPack(a, meta, c).Ok? && FullPack(a, meta, c) == FullPack(b, meta, c)
    ensures forall x, y :: x in a && y in b && x.path == y.path ==> x == y
  {
    PackReadsBack(a, meta, c);
    PackReadsBack(b, meta, c);
  }

  lemma EqualityMeansAgreement(prior: seq<Resource>, tree: seq<Resource>, bytes: Bytes, table: Table,
                               meta: Option<Bytes>, prefixes: seq<Bytes>, c: Codec)
    requires Lawful(c) && DescribesTree(table, bytes, prior) && !SomeMissing(tree, Some(table), prefixes)
    ensures FullPack(tree, meta, c).Ok?
            && FullPack(PatchAll(tree, bytes, Some(table), prefixes), meta, c) == FullPack(tree, meta, c)
            ==> AgreesOutside(prior, tree, prefixes)
  {
    hide PackSpec;
    var patched := PatchAll(tree, bytes, Some(table), prefixes);
    if FullPack(tree, meta, c).Err? || FullPack(patched, meta, c) != FullPack(tree, meta, c) {
      return;
    }
    PackDeterminesContent(tree, patched, meta, c);
    forall r | r in tree && !MatchesPrefix(r.path, prefixes)
      ensures r in prior
    {
      var i :| 0 <= i < |tree| && tree[i] == r;
      assert patched[i] in patched;
      assert r.path in table;
      var s :| s in prior && s.path == r.path;
      assert Holds(bytes, table[r.path], s.content);
      assert s == r;
    }
  }

  /** The incremental pack equals the full pack, byte for byte and content hash
      included, exactly when the tree repeats the base outside the changed prefixes;
      then they also fail alike. */
  lemma IncrementalIsFullIff(prior: seq<Resource>, priorMeta: Option<Bytes>, tree: seq<Resource>, meta: Option<Bytes>,
                             prefixes: seq<Bytes>, c: Codec)
    requires Lawful(c) && prefixes != []
    requires FullPack(prior, priorMeta, c).Ok?
    ensures var incremental :=
              PackSpec(tree, meta, Some(BaseOf(FullPack(prior, priorMeta, c).value.bytes, c)), prefixes, c);
            && (AgreesOutside(prior, tree, prefixes) ==> incremental == FullPack(tree, meta, c))
            && (FullPack(tree, meta, c).Ok? && incremental == FullPack(tree, meta, c) ==>
                  AgreesOutside(prior, tree, prefixes))
  {
    hide PackSpec, Entries, OpenBase;
    var bytes := FullPack(prior, priorMeta, c).value.bytes;
    BaseOpens(prior, priorMeta, prefixes, c);
    var table := Entries(bytes, c).value;
    IncrementalPacksPatchedTree(tree, meta, BaseOf(bytes, c), prefixes, c);
    if AgreesOutside(prior, tree, prefixes) {
      AgreementPatchesNothing(prior, tree, bytes, table, prefixes);
    } else if !SomeMissing(tree, Some(table), prefixes) {
      EqualityMeansAgreement(prior, tree, bytes, table, meta, prefixes, c);
    }
  }

  datatype Increment = Increment(tree: seq<Resource>, meta: Option<Bytes>, prefixes: seq<Bytes>)

  /** Each pack is built on the one before it. */
  function Chain(bytes: Bytes, steps: seq<Increment>, c: Codec): Result<Bytes, Error>
    decreases |steps|
  {
    if steps == [] then Ok(bytes)
    else
      var next := PackSpec(steps[0].tree, steps[0].meta, Some(BaseOf(bytes, c)), steps[0].prefixes, c);
      if next.Err? then Err(next.error) else Chain(next.value.bytes, steps[1..], c)
  }

  ghost predicate ChainAgrees(prior: seq<Resource>, steps: seq<Increment>, c: Codec)
    decreases |steps|
  {
    steps == [] ||
    (&& steps[0].prefixes != [] && AgreesOutside(prior, steps[0].tree, steps[0].prefixes)
     && FullPack(steps[0].tree, steps[0].meta, c).Ok?
     && ChainAgrees(steps[0].tree, steps[1..], c))
  }

  /** However many increments are stacked, the last pack is the full pack of the last tree. */
  lemma {:induction false} ChainsStayExact(prior: seq<Resource>, priorMeta: Option<Bytes>, steps: seq<Increment>,
                                           c: Codec)
    requires Lawful(c) && steps != []
    ensures FullPack(prior, priorMeta, c).Ok? && ChainAgrees(prior, steps, c) ==>
              var last := steps[|steps| - 1];
              FullPack(last.tree, last.meta, c).Ok? &&
              Chain(FullPack(prior, priorMeta, c).value.bytes, steps, c)
                  == Ok(FullPack(last.tree, last.meta, c).value.bytes)
    decreases |steps|
  {
    hide PackSpec;
    var first := steps[0];
    if FullPack(prior, priorMeta, c).Err? || !ChainAgrees(prior, steps, c) {
      return;
    }
    IncrementalIsFullIff(prior, priorMeta, first.tree, first.meta, first.prefixes, c);
    if |steps| > 1 {
      ChainsStayExact(first.tree, first.meta, steps[1..], c);
    }
  }

  // --------------------------------------------------------- a codec that reads back

  /** Each byte of a path after a 1, and a 0 at its end. */
  function Spelled(path: Bytes): Bytes {
    if path == [] then [0] else [1, path[0]] + Spelled(path[1..])
  }

  function SpelledAll(entries: seq<Entry>): Bytes {
    if entries == [] then [] else Spelled(entries[0].path) + SpelledAll(entries[1..])
  }

  /** The first path spelled by `b`, and what follows it. */
  function ReadPath(b: Bytes): (r: Option<(Bytes, Bytes)>)
    ensures r.Some? ==> |r.value.1| < |b|
  {
    if b == [] then None
    else if b[0] == 0 then Some(([], b[1..]))
    else if |b| == 1 then None
    else
      var rest := ReadPath(b[2..]);
      if rest.None? then None else Some(([b[1]] + rest.value.0, rest.value.1))
  }

  function ReadAll(b: Bytes): seq<Option<Bytes>>
    decreases |b|
  {
    var first := ReadPath(b);
    if first.None? then [] else [Some(first.value.0)] + ReadAll(first.value.1)
  }

  function SpellingCodec(): Codec {
    Codec((meta: Bytes, hash: Bytes, entries: seq<Entry>) => SpelledAll(entries),
          (b: Bytes) => Paths(ReadAll(b)), (b: Bytes) => b)
  }

  lemma {:induction false} PathReadsBack(path: Bytes, rest: Bytes)
    ensures ReadPath(Spelled(path) + rest) == Some((path, rest))
  {
    if path == [] {
      assert ([0] + rest)[1..] == rest;
    } else {
      PathReadsBack(path[1..], rest);
      var b := Spelled(path) + rest;
      assert b == [1, path[0]] + (Spelled(path[1..]) + rest);
      assert |b| > 1 && b[0] == 1 && b[1] == path[0] && b[2..] == Spelled(path[1..]) + rest;
      assert [path[0]] + path[1..] == path;
    }
  }

  lemma {:induction false} PathsReadBack(entries: seq<Entry>)
    ensures ReadAll(SpelledAll(entries)) == PathsOf(entries)
  {
    if entries != [] {
      PathReadsBack(entries[0].path, SpelledAll(entries[1..]));
      PathsReadBack(entries[1..]);
      assert PathsOf(entries) == [Some(entries[0].path)] + PathsOf(entries[1..]);
    }
  }

  /** Codecs that read back exist, so the theorems about them speak of something. */
  lemma LawfulCodecExists()
    ensures Lawful(SpellingCodec())
  {
    forall meta: Bytes, hash: Bytes, entries: seq<Entry>
      ensures SpellingCodec().decode(SpellingCodec().encode(meta, hash, entries)) == Paths(PathsOf(entries))
    {
      PathsReadBack(entries);
    }
  }
}
