/** Packing a resource tree, in full or by copying unchanged ranges out of an older
    pack, and reading the entry table of a pack. Files are their contents; the JSON
    codec and SHA-256 are functions supplied by the caller. */
module Pack {
  import opened Common
  import opened Ordering
  import opened PackFormat

  datatype Resource = Resource(path: Bytes, content: Bytes)
  datatype Entry = Entry(id: nat, path: Bytes)
  datatype Range = Range(offset: nat, length: nat)

  /** What the reader sees in a manifest: the `path` of every element of `entries`. */
  datatype Decoded = Undecodable | Paths(paths: seq<Option<Bytes>>)

  datatype Codec = Codec(encode: (Bytes, Bytes, seq<Entry>) -> Bytes, decode: Bytes -> Decoded, digest: Bytes -> Bytes)

  function PathsOf(entries: seq<Entry>): (r: seq<Option<Bytes>>)
    ensures |r| == |entries|
  {
    seq(|entries|, i requires 0 <= i < |entries| => Some(entries[i].path))
  }

  /** Decoding what was encoded yields the entries that were encoded. */
  ghost predicate Lawful(c: Codec) {
    forall meta: Bytes, hash: Bytes, entries: seq<Entry> ::
      c.decode(c.encode(meta, hash, entries)) == Paths(PathsOf(entries))
  }

  datatype Error =
    | DuplicatePath | Empty | BaseDigestRequired | BaseDrift | BaseInvalid | ChangedPrefixRequired
    | ResourceLimit | BaseEntryMissing | InvalidMetadata | SizeLimit

  datatype Packed = Packed(bytes: Bytes, contentHash: Bytes)

  /** The older pack of an incremental run and the digest it is expected to have. */
  datatype Base = Base(bytes: Bytes, expected: Option<Bytes>)

  type Table = map<Bytes, Range>

  const SLASH: Byte := 47

  predicate MatchesPrefix(path: Bytes, prefixes: seq<Bytes>) {
    exists k :: 0 <= k < |prefixes| && (path == prefixes[k] || prefixes[k] + [SLASH] <= path)
  }

  function ByPath(): (Resource, Resource) -> bool {
    (a: Resource, b: Resource) => LexLeq(a.path, b.path)
  }

  predicate HasAdjacentDuplicate(rs: seq<Resource>) {
    exists i :: 0 <= i < |rs| - 1 && rs[i].path == rs[i + 1].path
  }

  // ------------------------------------------------------------ what a pack contains

  /** The bytes hashed into `content_hash`. */
  function ContentStream(rs: seq<Resource>): Bytes {
    if rs == [] then []
    else
      var n := |rs| - 1;
      ContentStream(rs[..n]) + rs[n].path + [0] + rs[n].content
  }

  function Contents(rs: seq<Resource>): (r: seq<Bytes>)
    ensures |r| == |rs|
  {
    seq(|rs|, i requires 0 <= i < |rs| => rs[i].content)
  }

  function EntriesOf(rs: seq<Resource>): (r: seq<Entry>)
    ensures |r| == |rs|
  {
    seq(|rs|, i requires 0 <= i < |rs| => Entry(i + 2, rs[i].path))
  }

  function ManifestOf(rs: seq<Resource>, meta: Bytes, c: Codec): Bytes {
    c.encode(meta, c.digest(ContentStream(rs)), EntriesOf(rs))
  }

  function PartsOf(rs: seq<Resource>, meta: Bytes, c: Codec): seq<Bytes> {
    [ManifestOf(rs, meta, c)] + Contents(rs)
  }

  /** The pack of resources already sorted and resolved. */
  function Written(rs: seq<Resource>, meta: Option<Bytes>, c: Codec): Result<Packed, Error> {
    if meta.None? then Err(InvalidMetadata)
    else
      var bytes := Layout(PartsOf(rs, meta.value, c));
      if |bytes| > U32_MAX then Err(SizeLimit) else Ok(Packed(bytes, c.digest(ContentStream(rs))))
  }

  // ------------------------------------------------------------- the entry table

  function TableOf(paths: seq<Option<Bytes>>, offsets: seq<nat>, n: nat): Table
    requires n <= |paths| && |offsets| == |paths| + 2
    requires forall k :: 0 <= k < n ==> paths[k].Some?
    requires forall i, j :: 0 <= i <= j < |offsets| ==> offsets[i] <= offsets[j]
  {
    if n == 0 then map[]
    else TableOf(paths, offsets, n - 1)[paths[n - 1].value := Range(offsets[n], offsets[n + 1] - offsets[n])]
  }

  function Entries(b: Bytes, c: Codec): Result<Table, Error> {
    var read := ReadOffsets(b);
    if read.None? then Err(BaseInvalid)
    else
      var offsets := read.value;
      var manifest := c.decode(b[offsets[0]..offsets[1]]);
      if manifest.Undecodable? || |manifest.paths| + 2 != |offsets| then Err(BaseInvalid)
      else if exists k :: 0 <= k < |manifest.paths| && manifest.paths[k].None? then Err(BaseInvalid)
      else Ok(TableOf(manifest.paths, offsets, |manifest.paths|))
  }

  /** `parse_datapack_entries`. */
  method ParseEntries(b: Bytes, c: Codec) returns (r: Result<Table, Error>)
    ensures r == Entries(b, c)
  {
    var read := ReadOffsets(b);
    if read.None? {
      return Err(BaseInvalid);
    }
    var offsets := read.value;
    var manifest := c.decode(b[offsets[0]..offsets[1]]);
    if manifest.Undecodable? || |manifest.paths| + 2 != |offsets| {
      return Err(BaseInvalid);
    }
    var result: Table := map[];
    for position := 0 to |manifest.paths|
      invariant forall k :: 0 <= k < position ==> manifest.paths[k].Some?
      invariant result == TableOf(manifest.paths, offsets, position)
    {
      if manifest.paths[position].None? {
        return Err(BaseInvalid);
      }
      result := result[manifest.paths[position].value :=
                         Range(offsets[position + 1], offsets[position + 2] - offsets[position + 1])];
    }
    r := Ok(result);
  }

  /** Every range in a parsed table lies inside the file, so reading it never comes up short. */
  lemma {:induction false} TableInBounds(paths: seq<Option<Bytes>>, offsets: seq<nat>, n: nat, size: nat, path: Bytes)
    requires n <= |paths| && |offsets| == |paths| + 2
    requires forall k :: 0 <= k < n ==> paths[k].Some?
    requires forall i, j :: 0 <= i <= j < |offsets| ==> offsets[i] <= offsets[j]
    requires forall i :: 0 <= i < |offsets| ==> offsets[i] <= size
    requires path in TableOf(paths, offsets, n)
    ensures TableOf(paths, offsets, n)[path].offset + TableOf(paths, offsets, n)[path].length <= size
  {
    if n > 0 && path != paths[n - 1].value {
      TableInBounds(paths, offsets, n - 1, size, path);
    }
  }

  lemma EntriesInBounds(b: Bytes, c: Codec, path: Bytes)
    requires Entries(b, c).Ok? && path in Entries(b, c).value
    ensures Entries(b, c).value[path].offset + Entries(b, c).value[path].length <= |b|
  {
    var offsets := ReadOffsets(b).value;
    var paths := c.decode(b[offsets[0]..offsets[1]]).paths;
    TableInBounds(paths, offsets, |paths|, |b|, path);
  }

  // ------------------------------------------------------------ incremental packing

  function Slice(b: Bytes, range: Range): Bytes {
    if range.offset + range.length <= |b| then b[range.offset..range.offset + range.length] else []
  }

  /** Whether the content of `path` is copied from the base rather than read afresh. */
  predicate FromBase(path: Bytes, table: Option<Table>, prefixes: seq<Bytes>) {
    table.Some? && !MatchesPrefix(path, prefixes)
  }

  /** A resource with the content the pack will actually get. */
  function Patch(r: Resource, base: Bytes, table: Option<Table>, prefixes: seq<Bytes>): Resource {
    if FromBase(r.path, table, prefixes) && r.path in table.value then
      r.(content := Slice(base, table.value[r.path]))
    else r
  }

  function PatchAll(rs: seq<Resource>, base: Bytes, table: Option<Table>, prefixes: seq<Bytes>): (p: seq<Resource>)
    ensures |p| == |rs|
  {
    seq(|rs|, i requires 0 <= i < |rs| => Patch(rs[i], base, table, prefixes))
  }

  predicate SomeMissing(rs: seq<Resource>, table: Option<Table>, prefixes: seq<Bytes>) {
    exists i :: 0 <= i < |rs| && FromBase(rs[i].path, table, prefixes) && rs[i].path !in table.value
  }

  /** The table of the base, when there is one and it may be used. */
  function OpenBase(base: Option<Base>, prefixes: seq<Bytes>, c: Codec): Result<Option<Table>, Error> {
    if base.None? then Ok(None)
    else if base.value.expected.None? then Err(BaseDigestRequired)
    else if c.digest(base.value.bytes) != base.value.expected.value then Err(BaseDrift)
    else
      var entries := Entries(base.value.bytes, c);
      if entries.Err? then Err(entries.error)
      else if prefixes == [] then Err(ChangedPrefixRequired)
      else Ok(Some(entries.value))
  }

  function PackSpec(tree: seq<Resource>, meta: Option<Bytes>, base: Option<Base>, prefixes: seq<Bytes>, c: Codec)
    : Result<Packed, Error>
  {
    var rs := Sort(tree, ByPath());
    if HasAdjacentDuplicate(rs) then Err(DuplicatePath)
    else if rs == [] then Err(Empty)
    else
      var usable := OpenBase(base, prefixes, c);
      if usable.Err? then Err(usable.error)
      else if |rs| + 1 > U16_MAX then Err(ResourceLimit)
      else if SomeMissing(rs, usable.value, prefixes) then Err(BaseEntryMissing)
      else
        var bytes := if base.Some? then base.value.bytes else [];
        Written(PatchAll(rs, bytes, usable.value, prefixes), meta, c)
  }

  function FullPack(tree: seq<Resource>, meta: Option<Bytes>, c: Codec): Result<Packed, Error> {
    PackSpec(tree, meta, None, [], c)
  }

  /** The whole of `pack_chromium_datapack` after the tree was collected. */
  method PackTree(tree: seq<Resource>, meta: Option<Bytes>, base: Option<Base>, prefixes: seq<Bytes>, c: Codec)
    returns (r: Result<Packed, Error>)
    ensures r == PackSpec(tree, meta, base, prefixes, c)
  {
    var rs := Sort(tree, ByPath());
    if HasAdjacentDuplicate(rs) {
      return Err(DuplicatePath);
    }
    if rs == [] {
      return Err(Empty);
    }
    var table := None;
    var baseBytes := [];
    if base.Some? {
      if base.value.expected.None? {
        return Err(BaseDigestRequired);
      }
      baseBytes := base.value.bytes;
      if c.digest(baseBytes) != base.value.expected.value {
        return Err(BaseDrift);
      }
      var entries := ParseEntries(baseBytes, c);
      if entries.Err? {
        return Err(entries.error);
      }
      if prefixes == [] {
        return Err(ChangedPrefixRequired);
      }
      table := Some(entries.value);
      forall path | path in entries.value
        ensures entries.value[path].offset + entries.value[path].length <= |baseBytes|
      {
        EntriesInBounds(baseBytes, c, path);
      }
    }
    if |rs| + 1 > U16_MAX {
      return Err(ResourceLimit);
    }
    ghost var patched := PatchAll(rs, baseBytes, table, prefixes);
    var stream := HashedStream(rs, baseBytes, table, prefixes);
    if stream.Err? {
      return Err(stream.error);
    }
    if meta.None? {
      return Err(InvalidMetadata);
    }
    var contentHash := c.digest(stream.value);
    assert EntriesOf(rs) == EntriesOf(patched);
    var manifest := c.encode(meta.value, contentHash, EntriesOf(rs));
    var bytes := WriteFile(rs, manifest, baseBytes, table, prefixes);
    r := if bytes.Ok? then Ok(Packed(bytes.value, contentHash)) else Err(bytes.error);
  }

  /** The content of a resource as `hash_file_range_into` and `copy_file_range` read it. */
  function ReadContent(r: Resource, base: Bytes, table: Option<Table>, prefixes: seq<Bytes>): Bytes
    requires FromBase(r.path, table, prefixes) ==> r.path in table.value
  {
    if FromBase(r.path, table, prefixes) then Slice(base, table.value[r.path]) else r.content
  }

  /** The loop that feeds the content hash. */
  method HashedStream(rs: seq<Resource>, base: Bytes, table: Option<Table>, prefixes: seq<Bytes>)
    returns (r: Result<Bytes, Error>)
    ensures r == if SomeMissing(rs, table, prefixes) then Err(BaseEntryMissing)
                 else Ok(ContentStream(PatchAll(rs, base, table, prefixes)))
  {
    ghost var patched := PatchAll(rs, base, table, prefixes);
    var stream := [];
    for i := 0 to |rs|
      invariant forall k :: 0 <= k < i && FromBase(rs[k].path, table, prefixes) ==> rs[k].path in table.value
      invariant stream == ContentStream(patched[..i])
    {
      if FromBase(rs[i].path, table, prefixes) && rs[i].path !in table.value {
        return Err(BaseEntryMissing);
      }
      stream := stream + rs[i].path + [0] + ReadContent(rs[i], base, table, prefixes);
      assert patched[..i + 1][..i] == patched[..i];
    }
    assert patched[..|rs|] == patched;
    r := Ok(stream);
  }

  /** The parts of the file being written: manifest, then every resource as patched. */
  ghost function FileParts(rs: seq<Resource>, manifest: Bytes, base: Bytes, table: Option<Table>, prefixes: seq<Bytes>)
    : (r: seq<Bytes>)
    ensures |r| == |rs| + 1
  {
    [manifest] + Contents(PatchAll(rs, base, table, prefixes))
  }

  ghost predicate Readable(base: Bytes, table: Option<Table>) {
    forall path :: table.Some? && path in table.value ==> table.value[path].offset + table.value[path].length <= |base|
  }

  lemma PartIsContent(rs: seq<Resource>, manifest: Bytes, base: Bytes, table: Option<Table>, prefixes: seq<Bytes>,
                      i: nat)
    requires i < |rs| && !SomeMissing(rs, table, prefixes)
    ensures FileParts(rs, manifest, base, table, prefixes)[i + 1] == ReadContent(rs[i], base, table, prefixes)
  {
  }

  /** What the planner takes for the size of a resource. */
  function PlannedSize(r: Resource, table: Option<Table>, prefixes: seq<Bytes>): nat
    requires FromBase(r.path, table, prefixes) ==> r.path in table.value
  {
    if FromBase(r.path, table, prefixes) then table.value[r.path].length else |r.content|
  }

  lemma PlannedSizeIsPartSize(rs: seq<Resource>, manifest: Bytes, base: Bytes, table: Option<Table>,
                              prefixes: seq<Bytes>, i: nat)
    requires i < |rs| && !SomeMissing(rs, table, prefixes) && Readable(base, table)
    ensures PlannedSize(rs[i], table, prefixes) == |FileParts(rs, manifest, base, table, prefixes)[i + 1]|
  {
    PartIsContent(rs, manifest, base, table, prefixes, i);
  }

  lemma OffsetsExtend(start: nat, parts: seq<Bytes>, k: nat)
    requires k < |parts|
    ensures Offsets(start, parts[..k + 1]) == Offsets(start, parts[..k]) + [Offsets(start, parts[..k])[k] + |parts[k]|]
  {
    assert parts[..k + 1][..k] == parts[..k];
  }

  lemma FirstOffsets(start: nat, parts: seq<Bytes>)
    requires parts != []
    ensures Offsets(start, parts[..1]) == [start, start + |parts[0]|]
  {
    OffsetsExtend(start, parts, 0);
    assert parts[..0] == [];
  }

  /** The offsets come from the base table's lengths and the file sizes, before anything is copied. */
  method PlanOffsets(rs: seq<Resource>, manifest: Bytes, base: Bytes, table: Option<Table>, prefixes: seq<Bytes>)
    returns (offsets: seq<nat>)
    requires !SomeMissing(rs, table, prefixes) && Readable(base, table)
    ensures offsets == PartOffsets(FileParts(rs, manifest, base, table, prefixes))
  {
    ghost var parts := FileParts(rs, manifest, base, table, prefixes);
    var start := HEADER_SIZE + 6 * (|rs| + 2);
    offsets := [start, start + |manifest|];
    FirstOffsets(start, parts);
    for i := 0 to |rs|
      invariant offsets == Offsets(start, parts[..i + 1])
    {
      PlannedSizeIsPartSize(rs, manifest, base, table, prefixes, i);
      OffsetsExtend(start, parts, i + 1);
      var size := PlannedSize(rs[i], table, prefixes);
      offsets := offsets + [offsets[|offsets| - 1] + size];
    }
    assert parts[..|rs| + 1] == parts;
  }

  method WriteIndex(offsets: seq<nat>) returns (index: Bytes)
    requires |offsets| > 0
    ensures index == Index(offsets)
  {
    var count := |offsets| - 1;
    index := [];
    for i := 0 to count
      invariant index == IndexRows(offsets, i)
    {
      index := index + Le16(i + 1) + Le32(offsets[i]);
    }
    index := index + Le16(0) + Le32(offsets[count]);
  }

  method WriteData(rs: seq<Resource>, manifest: Bytes, base: Bytes, table: Option<Table>, prefixes: seq<Bytes>)
    returns (data: Bytes)
    requires !SomeMissing(rs, table, prefixes)
    ensures data == Concat(FileParts(rs, manifest, base, table, prefixes))
  {
    ghost var parts := FileParts(rs, manifest, base, table, prefixes);
    data := manifest;
    assert parts[..1] == [manifest];
    for i := 0 to |rs|
      invariant data == Concat(parts[..i + 1])
    {
      PartIsContent(rs, manifest, base, table, prefixes, i);
      data := data + ReadContent(rs[i], base, table, prefixes);
      assert parts[..i + 2][..i + 1] == parts[..i + 1];
    }
    assert parts[..|rs| + 1] == parts;
  }

  /** Offsets first, then header, index, manifest and the resource bytes. */
  method WriteFile(rs: seq<Resource>, manifest: Bytes, base: Bytes, table: Option<Table>, prefixes: seq<Bytes>)
    returns (r: Result<Bytes, Error>)
    requires !SomeMissing(rs, table, prefixes) && Readable(base, table)
    ensures var bytes := Layout(FileParts(rs, manifest, base, table, prefixes));
            r == if |bytes| > U32_MAX then Err(SizeLimit) else Ok(bytes)
  {
    ghost var parts := FileParts(rs, manifest, base, table, prefixes);
    var offsets := PlanOffsets(rs, manifest, base, table, prefixes);
    OffsetsInRange(parts, |parts|);
    assert parts[..|parts|] == parts;
    if offsets[|rs| + 1] > U32_MAX {
      return Err(SizeLimit);
    }
    var index := WriteIndex(offsets);
    var data := WriteData(rs, manifest, base, table, prefixes);
    r := Ok(Header(|rs| + 1) + index + data);
  }
}
