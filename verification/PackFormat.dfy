/** The byte layout of a DataPack version 5 file, and reading it back. */
module PackFormat {
  import opened Common
  import opened Ordering

  const U16_MAX: nat := 0xFFFF
  const U32_MAX: nat := 0xFFFF_FFFF
  const HEADER_SIZE: nat := 12

  /** `(n as u16).to_le_bytes()`: the cast drops the high bits. */
  function Le16(n: nat): (r: Bytes)
    ensures |r| == 2
  {
    [n % 256, n / 256 % 256]
  }

  /** `(n as u32).to_le_bytes()`. */
  function Le32(n: nat): (r: Bytes)
    ensures |r| == 4
  {
    [n % 256, n / 256 % 256, n / 65536 % 256, n / 16777216 % 256]
  }

  function FromLe16(b: Bytes): nat
    requires |b| == 2
  {
    b[0] as int + 256 * (b[1] as int)
  }

  function FromLe32(b: Bytes): nat
    requires |b| == 4
  {
    b[0] as int + 256 * (b[1] as int) + 65536 * (b[2] as int) + 16777216 * (b[3] as int)
  }

  lemma Le16RoundTrip(n: nat)
    ensures FromLe16(Le16(n)) == n <==> n <= U16_MAX
  {
    assert n == 256 * (n / 256) + n % 256;
  }

  lemma Le32RoundTrip(n: nat)
    ensures FromLe32(Le32(n)) == n <==> n <= U32_MAX
  {
    var a := n / 256;
    var b := n / 65536;
    var c := n / 16777216;
    assert n == 256 * a + n % 256;
    assert a == 256 * b + a % 256;
    assert b == 256 * c + b % 256;
  }

  /** The index rows before row `n`: ids 1..n, each with its offset. */
  function IndexRows(offsets: seq<nat>, n: nat): (r: Bytes)
    requires n <= |offsets|
    ensures |r| == 6 * n
  {
    if n == 0 then [] else IndexRows(offsets, n - 1) + Le16(n) + Le32(offsets[n - 1])
  }

  /** The whole index: one row per resource and a terminator with id 0. */
  function Index(offsets: seq<nat>): (r: Bytes)
    requires |offsets| > 0
    ensures |r| == 6 * |offsets|
  {
    var count := |offsets| - 1;
    IndexRows(offsets, count) + Le16(0) + Le32(offsets[count])
  }

  function Header(count: nat): (r: Bytes)
    ensures |r| == HEADER_SIZE
  {
    Le32(5) + [0, 0, 0, 0] + Le16(count) + Le16(0)
  }

  function Concat(parts: seq<Bytes>): Bytes {
    if parts == [] then [] else Concat(parts[..|parts| - 1]) + parts[|parts| - 1]
  }

  /** Running totals: the start of every part and the end of the last one. */
  function Offsets(start: nat, parts: seq<Bytes>): (r: seq<nat>)
    ensures |r| == |parts| + 1
  {
    if parts == [] then [start]
    else
      var before := Offsets(start, parts[..|parts| - 1]);
      before + [before[|parts| - 1] + |parts[|parts| - 1]|]
  }

  /** Where each part of a pack begins, and where the last one ends. */
  function PartOffsets(parts: seq<Bytes>): (r: seq<nat>)
    ensures |r| == |parts| + 1
  {
    Offsets(HEADER_SIZE + 6 * (|parts| + 1), parts)
  }

  /** A pack whose first part is the manifest. */
  function Layout(parts: seq<Bytes>): Bytes {
    Header(|parts|) + Index(PartOffsets(parts)) + Concat(parts)
  }

  lemma {:induction false} OffsetsAreSums(start: nat, parts: seq<Bytes>, k: nat)
    requires k <= |parts|
    ensures Offsets(start, parts)[k] == start + |Concat(parts[..k])|
  {
    if k < |parts| {
      OffsetsAreSums(start, parts[..|parts| - 1], k);
      assert parts[..|parts| - 1][..k] == parts[..k];
    } else {
      assert parts[..k] == parts;
      if parts != [] {
        OffsetsAreSums(start, parts[..k - 1], k - 1);
        assert parts[..k - 1][..k - 1] == parts[..k - 1];
      }
    }
  }

  lemma {:induction false} ConcatSplits(parts: seq<Bytes>, k: nat)
    requires k <= |parts|
    ensures |Concat(parts[..k])| <= |Concat(parts)| && Concat(parts)[..|Concat(parts[..k])|] == Concat(parts[..k])
    decreases |parts|
  {
    if k < |parts| {
      ConcatSplits(parts[..|parts| - 1], k);
      assert parts[..|parts| - 1][..k] == parts[..k];
    } else {
      assert parts[..k] == parts;
    }
  }

  /** Part `k` lies between its offset and the next. */
  lemma PartAt(parts: seq<Bytes>, k: nat)
    requires k < |parts|
    ensures var a := |Concat(parts[..k])|; var b := |Concat(parts[..k + 1])|;
            b == a + |parts[k]| && b <= |Concat(parts)| && Concat(parts)[a..b] == parts[k]
  {
    var a := |Concat(parts[..k])|;
    ConcatSplits(parts, k + 1);
    assert parts[..k + 1][..k] == parts[..k];
    assert Concat(parts[..k + 1]) == Concat(parts[..k]) + parts[k];
    assert Concat(parts)[..a + |parts[k]|][a..] == parts[k];
  }

  lemma {:induction false} RowAt(offsets: seq<nat>, n: nat, k: nat)
    requires k < n <= |offsets|
    ensures |IndexRows(offsets, n)| == 6 * n
    ensures IndexRows(offsets, n)[6 * k + 2..6 * k + 6] == Le32(offsets[k])
  {
    var before := IndexRows(offsets, n - 1);
    var row := Le16(n) + Le32(offsets[n - 1]);
    assert IndexRows(offsets, n) == before + row;
    if k < n - 1 {
      RowAt(offsets, n - 1, k);
      assert (before + row)[6 * k + 2..6 * k + 6] == before[6 * k + 2..6 * k + 6];
    } else {
      assert (before + row)[6 * k + 2..6 * k + 6] == row[2..6] == Le32(offsets[k]);
    }
  }

  lemma IndexAt(offsets: seq<nat>, k: nat)
    requires k < |offsets|
    ensures Index(offsets)[6 * k + 2..6 * k + 6] == Le32(offsets[k])
  {
    var count := |offsets| - 1;
    var rows := IndexRows(offsets, count);
    var end := Le16(0) + Le32(offsets[count]);
    assert Index(offsets) == rows + end;
    if k < count {
      RowAt(offsets, count, k);
      assert (rows + end)[6 * k + 2..6 * k + 6] == rows[6 * k + 2..6 * k + 6];
    } else {
      assert (rows + end)[6 * k + 2..6 * k + 6] == end[2..6] == Le32(offsets[count]);
    }
  }

  // ------------------------------------------------------------------- reading

  /** The offset table of a file, when its header and index are well formed. */
  function ReadOffsets(b: Bytes): (r: Option<seq<nat>>)
    ensures r.Some? ==> |r.value| >= 2
    ensures r.Some? ==> forall i, j :: 0 <= i <= j < |r.value| ==> r.value[i] <= r.value[j]
    ensures r.Some? ==> forall i :: 0 <= i < |r.value| ==> r.value[i] <= |b|
  {
    if |b| < HEADER_SIZE || FromLe32(b[0..4]) != 5 then None
    else
      var count := FromLe16(b[8..10]);
      if count < 1 || |b| < HEADER_SIZE + 6 * (count + 1) then None
      else
        var offsets := RawOffsets(b, count + 1);
        if exists i :: 0 <= i < count && offsets[i] > offsets[i + 1] then None
        else if offsets[count] > |b| then None
        else
          Ascending(offsets);
          Some(offsets)
  }

  function RawOffsets(b: Bytes, n: nat): (r: seq<nat>)
    requires |b| >= HEADER_SIZE + 6 * n
    ensures |r| == n
    ensures forall k :: 0 <= k < n ==> r[k] == FromLe32(b[HEADER_SIZE + 6 * k + 2..HEADER_SIZE + 6 * k + 6])
  {
    if n == 0 then []
    else RawOffsets(b, n - 1) + [FromLe32(b[HEADER_SIZE + 6 * (n - 1) + 2..HEADER_SIZE + 6 * (n - 1) + 6])]
  }

  lemma {:induction false} Ascending(s: seq<nat>)
    requires forall i :: 0 <= i < |s| - 1 ==> s[i] <= s[i + 1]
    ensures forall i, j :: 0 <= i <= j < |s| ==> s[i] <= s[j]
  {
    if s != [] {
      var n := |s| - 1;
      Ascending(s[..n]);
      forall i | 0 <= i <= n
        ensures s[i] <= s[n]
      {
        if i < n {
          assert s[..n][i] <= s[..n][n - 1];
        }
      }
      forall i, j | 0 <= i <= j < |s|
        ensures s[i] <= s[j]
      {
        if j < n {
          assert s[..n][i] <= s[..n][j];
        }
      }
    }
  }

  lemma SliceMiddle(a: Bytes, b: Bytes, c: Bytes, i: nat, j: nat)
    requires i <= j <= |b|
    ensures (a + b + c)[|a| + i..|a| + j] == b[i..j]
  {
  }

  lemma HeaderReadsBack(count: nat, rest: Bytes)
    requires count <= U16_MAX
    ensures var b := Header(count) + rest;
            FromLe32(b[0..4]) == 5 && FromLe16(b[8..10]) == count
  {
    var b := Header(count) + rest;
    assert b[0..4] == Le32(5);
    assert b[8..10] == Le16(count);
    Le16RoundTrip(count);
    Le32RoundTrip(5);
  }

  lemma OffsetsInRange(parts: seq<Bytes>, k: nat)
    requires k <= |parts|
    ensures PartOffsets(parts)[k] == HEADER_SIZE + 6 * (|parts| + 1) + |Concat(parts[..k])| <= |Layout(parts)|
  {
    OffsetsAreSums(HEADER_SIZE + 6 * (|parts| + 1), parts, k);
    ConcatSplits(parts, k);
    assert |Layout(parts)| == HEADER_SIZE + 6 * (|parts| + 1) + |Concat(parts)|;
  }

  lemma RowReadsBack(parts: seq<Bytes>, k: nat)
    requires k <= |parts| && |Layout(parts)| <= U32_MAX
    ensures |Layout(parts)| >= HEADER_SIZE + 6 * (k + 1)
    ensures FromLe32(Layout(parts)[HEADER_SIZE + 6 * k + 2..HEADER_SIZE + 6 * k + 6]) == PartOffsets(parts)[k]
  {
    var offsets := PartOffsets(parts);
    OffsetsInRange(parts, k);
    IndexAt(offsets, k);
    SliceMiddle(Header(|parts|), Index(offsets), Concat(parts), 6 * k + 2, 6 * k + 6);
    Le32RoundTrip(offsets[k]);
  }

  lemma RawOffsetsReadBack(parts: seq<Bytes>)
    requires |Layout(parts)| <= U32_MAX
    ensures |Layout(parts)| >= HEADER_SIZE + 6 * (|parts| + 1)
    ensures RawOffsets(Layout(parts), |parts| + 1) == PartOffsets(parts)
  {
    OffsetsInRange(parts, 0);
    forall k | 0 <= k <= |parts|
      ensures RawOffsets(Layout(parts), |parts| + 1)[k] == PartOffsets(parts)[k]
    {
      RowReadsBack(parts, k);
    }
  }

  /** Reading the index of a written pack gives back the exact offsets: neither the
      u16 count nor any u32 offset was truncated. */
  lemma OffsetsReadBack(parts: seq<Bytes>)
    requires 1 <= |parts| <= U16_MAX && |Layout(parts)| <= U32_MAX
    ensures ReadOffsets(Layout(parts)) == Some(PartOffsets(parts))
  {
    var offsets := PartOffsets(parts);
    HeaderReadsBack(|parts|, Index(offsets) + Concat(parts));
    assert Layout(parts) == Header(|parts|) + (Index(offsets) + Concat(parts));
    RawOffsetsReadBack(parts);
    forall i | 0 <= i < |parts|
      ensures offsets[i] <= offsets[i + 1]
    {
      OffsetsInRange(parts, i);
      OffsetsInRange(parts, i + 1);
      PartAt(parts, i);
    }
    OffsetsInRange(parts, |parts|);
  }

  /** Between consecutive offsets of a written pack lies exactly the part packed there. */
  lemma PartsReadBack(parts: seq<Bytes>, k: nat)
    requires k < |parts|
    ensures var offsets := PartOffsets(parts);
            && offsets[k] <= offsets[k + 1] <= |Layout(parts)| && offsets[k + 1] - offsets[k] == |parts[k]|
            && Layout(parts)[offsets[k]..offsets[k + 1]] == parts[k]
  {
    OffsetsInRange(parts, k);
    OffsetsInRange(parts, k + 1);
    PartAt(parts, k);
    var front := Header(|parts|) + Index(PartOffsets(parts));
    SliceMiddle(front, Concat(parts), [], |Concat(parts[..k])|, |Concat(parts[..k + 1])|);
    assert front + Concat(parts) + [] == Layout(parts);
  }
}
