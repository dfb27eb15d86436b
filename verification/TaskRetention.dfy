/** `prune_retention`: exact counters, the shortest oldest-first eviction, idempotence. */
module TaskRetention {
  import opened Common
  import opened Ordering
  import opened Tasks
  import opened TaskTheorems

  ghost predicate DistinctIds(tasks: seq<Task>) {
    forall i, j :: 0 <= i < j < |tasks| ==> tasks[i].id != tasks[j].id
  }

  predicate In(x: Task, t: Table) {
    x.id in t.tasks && t.tasks[x.id] == x
  }

  /** The tasks of the table satisfying `p`, each once. */
  ghost predicate Enumerates(tasks: seq<Task>, t: Table, p: Task -> bool) {
    && DistinctIds(tasks)
    && forall x: Task :: x in tasks <==> In(x, t) && p(x)
  }

  lemma {:induction false} SelectMembers(t: Table, order: seq<Bytes>, p: Task -> bool)
    requires forall i :: 0 <= i < |order| ==> order[i] in t.tasks
    ensures forall x :: x in Select(t, order, p) <==> p(x) && exists i :: 0 <= i < |order| && t.tasks[order[i]] == x
  {
    if order != [] {
      var n := |order| - 1;
      SelectMembers(t, order[..n], p);
      forall x
        ensures x in Select(t, order, p) <==> p(x) && exists i :: 0 <= i < |order| && t.tasks[order[i]] == x
      {
        if i :| 0 <= i < |order| && t.tasks[order[i]] == x {
          assert i < n ==> order[..n][i] == order[i];
        }
        if i :| 0 <= i < n && t.tasks[order[..n][i]] == x {
          assert t.tasks[order[i]] == x;
        }
      }
    }
  }

  lemma {:induction false} SelectDistinct(t: Table, order: seq<Bytes>, p: Task -> bool)
    requires IdsMatch(t) && (forall i :: 0 <= i < |order| ==> order[i] in t.tasks)
    requires forall i, j :: 0 <= i < j < |order| ==> order[i] != order[j]
    ensures DistinctIds(Select(t, order, p))
  {
    if order != [] {
      var n := |order| - 1;
      SelectDistinct(t, order[..n], p);
      SelectMembers(t, order[..n], p);
      var before := Select(t, order[..n], p);
      forall k | 0 <= k < |before|
        ensures before[k].id != order[n]
      {
        assert before[k] in before;
        var i :| 0 <= i < n && t.tasks[order[..n][i]] == before[k];
      }
    }
  }

  lemma SelectEnumerates(t: Table, order: seq<Bytes>, p: Task -> bool)
    requires IdsMatch(t) && Lists(order, t)
    ensures Enumerates(Select(t, order, p), t, p)
  {
    SelectDistinct(t, order, p);
    SelectMembers(t, order, p);
    forall x: Task | In(x, t) && p(x)
      ensures x in Select(t, order, p)
    {
      var i :| 0 <= i < |order| && order[i] == x.id;
    }
  }

  lemma OlderIsPreorder()
    ensures TotalPreorder(Older())
  {
    forall a: Task, b: Task
      ensures Older()(a, b) || Older()(b, a)
    {
      LexTotal(a.id, b.id);
    }
    forall a: Task, b: Task, c: Task | Older()(a, b) && Older()(b, c)
      ensures Older()(a, c)
    {
      if a.updatedAt == b.updatedAt == c.updatedAt {
        LexTransitive(a.id, b.id, c.id);
      }
    }
  }

  // -------------------------------------------------------------- counting by parts

  lemma {:induction false} MultiplicityOne(tasks: seq<Task>, x: Task)
    requires DistinctIds(tasks)
    ensures multiset(tasks)[x] == if x in tasks then 1 else 0
  {
    if tasks != [] {
      var n := |tasks| - 1;
      MultiplicityOne(tasks[..n], x);
      assert tasks == tasks[..n] + [tasks[n]];
    }
  }

  lemma SameElementsSameMultiset(a: seq<Task>, b: seq<Task>)
    requires DistinctIds(a) && DistinctIds(b) && forall x :: x in a <==> x in b
    ensures multiset(a) == multiset(b) && |a| == |b|
  {
    forall x: Task
      ensures multiset(a)[x] == multiset(b)[x]
    {
      MultiplicityOne(a, x);
      MultiplicityOne(b, x);
    }
    assert |a| == |multiset(a)| && |b| == |multiset(b)|;
  }

  lemma SortKeepsDistinct(tasks: seq<Task>)
    requires DistinctIds(tasks)
    ensures DistinctIds(Sort(tasks, Older()))
  {
    SortPermutes(tasks, Older());
    var r := Sort(tasks, Older());
    forall i, j | 0 <= i < j < |r|
      ensures r[i].id != r[j].id
    {
      if r[i] == r[j] {
        MultiplicityOne(tasks, r[i]);
        TwiceInside(r, i, j);
      } else {
        SortMembers(tasks, Older());
        assert r[i] in tasks && r[j] in tasks;
        var k :| 0 <= k < |tasks| && tasks[k] == r[i];
        var l :| 0 <= l < |tasks| && tasks[l] == r[j];
        assert k != l;
      }
    }
  }

  lemma {:induction false} SizeOfConcat(a: seq<Task>, b: seq<Task>, size: Task -> nat)
    ensures TotalSize(a + b, size) == TotalSize(a, size) + TotalSize(b, size)
  {
    if b == [] {
      assert a + b == a;
    } else {
      var n := |b| - 1;
      assert (a + b)[..|a + b| - 1] == a + b[..n];
      SizeOfConcat(a, b[..n], size);
    }
  }

  /** The total does not depend on the order of the tasks. */
  lemma {:induction false} SizeOfPermutation(a: seq<Task>, b: seq<Task>, size: Task -> nat)
    requires multiset(a) == multiset(b)
    ensures TotalSize(a, size) == TotalSize(b, size)
    decreases |a|
  {
    assert |a| == |multiset(a)| && |b| == |multiset(b)|;
    if a != [] {
      var n := |a| - 1;
      var x := a[n];
      assert a == a[..n] + [x];
      assert x in multiset(b);
      var j :| 0 <= j < |b| && b[j] == x;
      var rest := b[..j] + b[j + 1..];
      assert b == b[..j] + [x] + b[j + 1..];
      assert multiset(rest) == multiset(b) - multiset{x};
      assert multiset(a[..n]) == multiset(a) - multiset{x};
      SizeOfPermutation(a[..n], rest, size);
      SizeOfConcat(b[..j], [x], size);
      SizeOfConcat(b[..j] + [x], b[j + 1..], size);
      SizeOfConcat(b[..j], b[j + 1..], size);
      assert [x][..0] == [];
      assert TotalSize([x], size) == size(x);
    }
  }

  lemma {:induction false} IdSetSize(tasks: seq<Task>)
    requires DistinctIds(tasks)
    ensures |IdsOf(tasks)| == |tasks|
  {
    if tasks != [] {
      var n := |tasks| - 1;
      IdSetSize(tasks[..n]);
      IdsGrow(tasks, n);
      assert tasks[..n + 1] == tasks;
      assert tasks[n].id !in IdsOf(tasks[..n]);
    }
  }

  // --------------------------------------------------------------- exact counters

  /** The running count starts at the number of tasks that did not expire. */
  lemma RetainedCountExact(t: Table, order: seq<Bytes>, cutoff: nat)
    requires IdsMatch(t) && Lists(order, t)
    ensures RetainedCount(t, cutoff) == |Select(t, order, Kept(cutoff))| == |t.tasks| - |Expired(t, cutoff)|
  {
    SelectEnumerates(t, order, Kept(cutoff));
    var kept := Select(t, order, Kept(cutoff));
    IdSetSize(kept);
    assert IdsOf(kept) == t.tasks.Keys - Expired(t, cutoff) by {
      forall id | id in t.tasks.Keys - Expired(t, cutoff)
        ensures id in IdsOf(kept)
      {
        assert t.tasks[id] in kept;
      }
      forall id | id in IdsOf(kept)
        ensures id in t.tasks.Keys - Expired(t, cutoff)
      {
        var i :| 0 <= i < |kept| && kept[i].id == id;
        assert kept[i] in kept;
      }
    }
    assert Expired(t, cutoff) <= t.tasks.Keys;
  }

  lemma {:induction false} EvictablesFit(t: Table, order: seq<Bytes>, cutoff: nat, size: Task -> nat)
    requires forall i :: 0 <= i < |order| ==> order[i] in t.tasks
    ensures |Select(t, order, Evictable(cutoff))| <= |Select(t, order, Kept(cutoff))|
    ensures TotalSize(Select(t, order, Evictable(cutoff)), size) <= TotalSize(Select(t, order, Kept(cutoff)), size)
  {
    if order != [] {
      var n := |order| - 1;
      var task := t.tasks[order[n]];
      EvictablesFit(t, order[..n], cutoff, size);
      var e, k := Select(t, order[..n], Evictable(cutoff)), Select(t, order[..n], Kept(cutoff));
      assert (e + [task])[..|e|] == e && (k + [task])[..|k|] == k;
      assert e + [] == e && k + [] == k;
    }
  }

  lemma SortedSize(tasks: seq<Task>, size: Task -> nat)
    ensures |Sort(tasks, Older())| == |tasks| && TotalSize(Sort(tasks, Older()), size) == TotalSize(tasks, size)
  {
    SortPermutes(tasks, Older());
    SizeOfPermutation(Sort(tasks, Older()), tasks, size);
  }

  /** Every candidate is counted in the running totals, so no subtraction saturates. */
  lemma CandidatesFit(t: Table, order: seq<Bytes>, cutoff: nat, size: Task -> nat)
    requires IdsMatch(t) && Lists(order, t)
    ensures |Candidates(t, order, cutoff)| <= RetainedCount(t, cutoff)
    ensures TotalSize(Candidates(t, order, cutoff), size) <= RetainedBytes(t, order, cutoff, size)
  {
    RetainedCountExact(t, order, cutoff);
    EvictablesFit(t, order, cutoff, size);
    SortedSize(Select(t, order, Evictable(cutoff)), size);
  }

  predicate Fits(count: int, bytes: int, maxCount: nat, maxBytes: nat) {
    count <= maxCount && bytes <= maxBytes
  }

  /** While every candidate is counted, the loop's subtractions are exact. */
  lemma EvictedStep(c: seq<Task>, count: nat, bytes: nat, maxCount: nat, maxBytes: nat, size: Task -> nat)
    requires |c| <= count && TotalSize(c, size) <= bytes && Evicted(c, count, bytes, maxCount, maxBytes, size) > 0
    ensures c != [] && !Fits(count, bytes, maxCount, maxBytes) && size(c[0]) + TotalSize(c[1..], size) <= bytes
    ensures Evicted(c, count, bytes, maxCount, maxBytes, size)
            == 1 + Evicted(c[1..], count - 1, bytes - size(c[0]), maxCount, maxBytes, size)
  {
    HeadSize(c, |c|, size);
    assert c[..|c|] == c && c[1..][..|c| - 1] == c[1..];
  }

  /** The loop takes the shortest prefix after which both limits hold, or everything. */
  lemma {:induction false} EvictsShortestPrefix(c: seq<Task>, count: nat, bytes: nat, maxCount: nat, maxBytes: nat,
                                                size: Task -> nat, j: nat)
    requires |c| <= count && TotalSize(c, size) <= bytes
    ensures var k := Evicted(c, count, bytes, maxCount, maxBytes, size);
            && (j < k ==> !Fits(count - j, bytes - TotalSize(c[..j], size), maxCount, maxBytes))
            && (k < |c| ==> Fits(count - k, bytes - TotalSize(c[..k], size), maxCount, maxBytes))
    decreases |c|
  {
    var k := Evicted(c, count, bytes, maxCount, maxBytes, size);
    assert c[..0] == [] && TotalSize(c[..0], size) == 0;
    if k > 0 {
      hide Evicted, TotalSize, Fits;
      EvictedStep(c, count, bytes, maxCount, maxBytes, size);
      EvictsShortestPrefix(c[1..], count - 1, bytes - size(c[0]), maxCount, maxBytes, size, if j > 0 then j - 1 else 0);
      HeadSize(c, k, size);
      if 0 < j < k {
        HeadSize(c, j, size);
      }
    }
  }

  lemma SizeOfOne(x: Task, size: Task -> nat)
    ensures TotalSize([x], size) == size(x)
  {
    assert [x][..0] == [];
  }

  lemma HeadSize(c: seq<Task>, k: nat, size: Task -> nat)
    requires 0 < k <= |c|
    ensures TotalSize(c[..k], size) == size(c[0]) + TotalSize(c[1..][..k - 1], size)
  {
    assert c[..k] == [c[0]] + c[1..][..k - 1];
    SizeOfConcat([c[0]], c[1..][..k - 1], size);
    SizeOfOne(c[0], size);
  }

  // -------------------------------------------------------------------- theorems

  /** The candidates are exactly the unexpired terminal tasks, oldest first by (updatedAt, id). */
  lemma CandidatesEnumerate(t: Table, order: seq<Bytes>, cutoff: nat)
    requires IdsMatch(t) && Lists(order, t)
    ensures Enumerates(Candidates(t, order, cutoff), t, Evictable(cutoff))
            && SortedBy(Candidates(t, order, cutoff), Older())
  {
    var terminal := Select(t, order, Evictable(cutoff));
    SelectEnumerates(t, order, Evictable(cutoff));
    SortKeepsDistinct(terminal);
    SortMembers(terminal, Older());
    OlderIsPreorder();
    SortSorts(terminal, Older());
  }

  /** No task that can still run is ever removed. */
  lemma OnlyTerminalPruned(t: Table, order: seq<Bytes>, now: nat, retention: nat, maxCount: nat, maxBytes: nat,
                           size: Task -> nat, id: Bytes)
    requires IdsMatch(t) && Lists(order, t)
    requires id in Pruned(t, order, now, retention, maxCount, maxBytes, size)
    ensures id in t.tasks && Terminal(t.tasks[id].state)
  {
    var cutoff := SaturatingSub(now, retention);
    CandidatesEnumerate(t, order, cutoff);
    var c := Candidates(t, order, cutoff);
    var k := EvictedCount(t, order, cutoff, maxCount, maxBytes, size);
    if id !in Expired(t, cutoff) {
      var i :| 0 <= i < k && c[..k][i].id == id;
      assert c[i] in c;
    }
  }

  /** After `j` evictions both limits hold, in exact arithmetic. */
  ghost predicate MeetsLimits(t: Table, order: seq<Bytes>, cutoff: nat, j: nat, maxCount: nat, maxBytes: nat,
                              size: Task -> nat)
    requires (forall i :: 0 <= i < |order| ==> order[i] in t.tasks) && j <= |Candidates(t, order, cutoff)|
  {
    Fits(RetainedCount(t, cutoff) - j,
         RetainedBytes(t, order, cutoff, size) - TotalSize(Candidates(t, order, cutoff)[..j], size), maxCount, maxBytes)
  }

  /** Capacity evictions take as few candidates from the front as meet both limits, or
      else all of them; the totals compared are exact. */
  lemma EvictionIsMinimal(t: Table, order: seq<Bytes>, cutoff: nat, maxCount: nat, maxBytes: nat, size: Task -> nat)
    requires IdsMatch(t) && Lists(order, t)
    ensures var k := EvictedCount(t, order, cutoff, maxCount, maxBytes, size);
            && (forall j :: 0 <= j < k ==> !MeetsLimits(t, order, cutoff, j, maxCount, maxBytes, size))
            && (k < |Candidates(t, order, cutoff)| ==> MeetsLimits(t, order, cutoff, k, maxCount, maxBytes, size))
  {
    hide Candidates, RetainedBytes, RetainedCount, Evicted;
    CandidatesFit(t, order, cutoff, size);
    var c := Candidates(t, order, cutoff);
    var count, bytes := RetainedCount(t, cutoff), RetainedBytes(t, order, cutoff, size);
    hide Lists, TotalSize;
    EvictsShortestPrefix(c, count, bytes, maxCount, maxBytes, size, 0);
    var k := EvictedCount(t, order, cutoff, maxCount, maxBytes, size);
    forall j | 0 <= j < k
      ensures !MeetsLimits(t, order, cutoff, j, maxCount, maxBytes, size)
    {
      EvictsShortestPrefix(c, count, bytes, maxCount, maxBytes, size, j);
    }
  }

  // ----------------------------------------------------------- pruning twice

  /** `t'` holds the unexpired tasks of `t` other than those gone. */
  ghost predicate Leaves(t: Table, t': Table, gone: set<Bytes>, cutoff: nat) {
    forall x: Task :: In(x, t') <==> In(x, t) && !IsExpired(x, cutoff) && x.id !in gone
  }

  lemma GoneAreKept(t: Table, gone: seq<Task>, cutoff: nat)
    requires forall x :: x in gone ==> In(x, t) && Evictable(cutoff)(x)
    ensures IdsOf(gone) <= t.tasks.Keys - Expired(t, cutoff)
  {
    forall id | id in IdsOf(gone)
      ensures id in t.tasks.Keys - Expired(t, cutoff)
    {
      var i :| 0 <= i < |gone| && gone[i].id == id;
      assert gone[i] in gone;
    }
  }

  /** What a prune leaves, in terms of the table before it. */
  lemma AfterPrune(t: Table, gone: set<Bytes>, cutoff: nat, t': Table)
    requires IdsMatch(t) && t' == Without(t, Expired(t, cutoff) + gone)
    ensures IdsMatch(t') && Expired(t', cutoff) == {} && Leaves(t, t', gone, cutoff)
  {
    hide KeyOf;
    assert t'.tasks == t.tasks - (Expired(t, cutoff) + gone);
  }

  lemma CountAfterPrune(t: Table, gone: seq<Task>, cutoff: nat, t': Table)
    requires t' == Without(t, Expired(t, cutoff) + IdsOf(gone)) && DistinctIds(gone)
    requires forall x :: x in gone ==> In(x, t) && Evictable(cutoff)(x)
    ensures |t'.tasks| == |t.tasks| - |Expired(t, cutoff)| - |gone|
  {
    GoneAreKept(t, gone, cutoff);
    IdSetSize(gone);
    CardinalityLeft(t.tasks.Keys, Expired(t, cutoff), IdsOf(gone));
    assert t'.tasks.Keys == t.tasks.Keys - Expired(t, cutoff) - IdsOf(gone);
  }

  lemma PrefixOf(t: Table, c: seq<Task>, k: nat, cutoff: nat)
    requires k <= |c| && Enumerates(c, t, Evictable(cutoff))
    ensures DistinctIds(c[..k]) && forall x :: x in c[..k] ==> In(x, t) && Evictable(cutoff)(x)
  {
    assert forall x :: x in c[..k] ==> x in c;
  }

  lemma CardinalityLeft(all: set<Bytes>, a: set<Bytes>, b: set<Bytes>)
    requires a <= all && b <= all - a
    ensures |all - a - b| == |all| - |a| - |b|
  {
    assert |all - a| == |all| - |a|;
    assert |all - a - b| == |all - a| - |b|;
  }

  lemma BytesAfterPrune(t: Table, order: seq<Bytes>, cutoff: nat, k: nat, t': Table, order': seq<Bytes>,
                        size: Task -> nat)
    requires IdsMatch(t) && Lists(order, t) && k <= |Candidates(t, order, cutoff)|
    requires t' == Without(t, Expired(t, cutoff) + IdsOf(Candidates(t, order, cutoff)[..k])) && Lists(order', t')
    ensures RetainedBytes(t', order', cutoff, size)
            == RetainedBytes(t, order, cutoff, size) - TotalSize(Candidates(t, order, cutoff)[..k], size)
  {
    hide Without, Candidates;
    CandidatesEnumerate(t, order, cutoff);
    AfterPrune(t, IdsOf(Candidates(t, order, cutoff)[..k]), cutoff, t');
    SelectEnumerates(t, order, Kept(cutoff));
    SelectEnumerates(t', order', Kept(cutoff));
    var gone := Candidates(t, order, cutoff)[..k];
    var kept := Select(t, order, Kept(cutoff));
    var kept' := Select(t', order', Kept(cutoff));
    PartitionOfKept(t, t', kept, kept', Candidates(t, order, cutoff), k, cutoff);
    SizeOfPermutation(kept' + gone, kept, size);
    SizeOfConcat(kept', gone, size);
  }

  lemma PartitionOfKept(t: Table, t': Table, kept: seq<Task>, kept': seq<Task>, c: seq<Task>, k: nat, cutoff: nat)
    requires k <= |c| && Enumerates(c, t, Evictable(cutoff))
    requires Enumerates(kept, t, Kept(cutoff)) && Enumerates(kept', t', Kept(cutoff))
    requires Leaves(t, t', IdsOf(c[..k]), cutoff)
    ensures multiset(kept' + c[..k]) == multiset(kept)
  {
    var both := kept' + c[..k];
    forall x: Task
      ensures x in both <==> x in kept
    {
      if x in c[..k] {
        assert x in c;
      }
      if x in kept && x !in kept' {
        assert x.id in IdsOf(c[..k]);
        var i :| 0 <= i < k && c[..k][i].id == x.id;
        assert c[i] in c && c[i] == x;
        assert c[..k][i] == x;
      }
    }
    forall i, j | 0 <= i < |kept'| && 0 <= j < k
      ensures kept'[i].id != c[..k][j].id
    {
      assert kept'[i] in kept';
      assert c[..k][j].id in IdsOf(c[..k]);
    }
    assert DistinctIds(c[..k]);
    assert DistinctIds(both);
    SameElementsSameMultiset(both, kept);
  }

  lemma LimitsAfterPrune(t: Table, order: seq<Bytes>, cutoff: nat, maxCount: nat, maxBytes: nat, size: Task -> nat,
                         t': Table, order': seq<Bytes>)
    requires IdsMatch(t) && Lists(order, t) && Lists(order', t')
    requires var k := EvictedCount(t, order, cutoff, maxCount, maxBytes, size);
             t' == Without(t, Expired(t, cutoff) + IdsOf(Candidates(t, order, cutoff)[..k]))
    ensures Expired(t', cutoff) == {}
    ensures Candidates(t', order', cutoff) == []
            || Fits(|t'.tasks|, RetainedBytes(t', order', cutoff, size), maxCount, maxBytes)
  {
    ListsCover(order, t);
    ListsCover(order', t');
    var c := Candidates(t, order, cutoff);
    var k := EvictedCount(t, order, cutoff, maxCount, maxBytes, size);
    hide Without, Candidates, Lists, Expired, EvictedCount, Enumerates, Leaves, DistinctIds, IdsMatch, RetainedBytes,
         RetainedCount, In, IdsOf;
    CandidatesEnumerate(t, order, cutoff);
    AfterPrune(t, IdsOf(c[..k]), cutoff, t');
    if k == |c| {
      NothingEvictable(t, t', c, cutoff, order');
    } else {
      PrefixOf(t, c, k, cutoff);
      CountAfterPrune(t, c[..k], cutoff, t');
      BytesAfterPrune(t, order, cutoff, k, t', order', size);
      RetainedCountExact(t, order, cutoff);
      EvictionIsMinimal(t, order, cutoff, maxCount, maxBytes, size);
    }
  }

  /** An immediate second prune with the same limits removes nothing. */
  lemma PruneTwiceIsOnce(t: Table, order: seq<Bytes>, now: nat, retention: nat, maxCount: nat, maxBytes: nat,
                         size: Task -> nat,
                         order': seq<Bytes>)
    requires IdsMatch(t) && Lists(order, t)
    requires Lists(order', Without(t, Pruned(t, order, now, retention, maxCount, maxBytes, size)))
    ensures var t' := Without(t, Pruned(t, order, now, retention, maxCount, maxBytes, size));
            Pruned(t', order', now, retention, maxCount, maxBytes, size) == {}
  {
    var cutoff := SaturatingSub(now, retention);
    var t' := Without(t, Pruned(t, order, now, retention, maxCount, maxBytes, size));
    ListsCover(order', t');
    hide Without, Candidates, Lists, Expired, EvictedCount, IdsMatch;
    LimitsAfterPrune(t, order, cutoff, maxCount, maxBytes, size, t', order');
    SecondEvictsNothing(t', order', cutoff, maxCount, maxBytes, size);
  }

  lemma SecondEvictsNothing(t: Table, order: seq<Bytes>, cutoff: nat, maxCount: nat, maxBytes: nat, size: Task -> nat)
    requires (forall i :: 0 <= i < |order| ==> order[i] in t.tasks) && Expired(t, cutoff) == {}
    requires Candidates(t, order, cutoff) == []
             || Fits(|t.tasks|, RetainedBytes(t, order, cutoff, size), maxCount, maxBytes)
    ensures Expired(t, cutoff)
            + IdsOf(Candidates(t, order, cutoff)[..EvictedCount(t, order, cutoff, maxCount, maxBytes, size)]) == {}
  {
    hide Candidates, RetainedBytes;
    assert RetainedCount(t, cutoff) == |t.tasks|;
    assert EvictedCount(t, order, cutoff, maxCount, maxBytes, size) == 0;
  }

  lemma ListsCover(order: seq<Bytes>, t: Table)
    requires Lists(order, t)
    ensures forall i :: 0 <= i < |order| ==> order[i] in t.tasks
  {
  }

  lemma HasMember(tasks: seq<Task>)
    requires tasks != []
    ensures exists x :: x in tasks
  {
    assert tasks[0] in tasks;
  }

  lemma NothingEvictable(t: Table, t': Table, c: seq<Task>, cutoff: nat, order': seq<Bytes>)
    requires Enumerates(c, t, Evictable(cutoff)) && IdsMatch(t') && Lists(order', t')
    requires Leaves(t, t', IdsOf(c[..|c|]), cutoff)
    ensures Candidates(t', order', cutoff) == []
  {
    CandidatesEnumerate(t', order', cutoff);
    var c' := Candidates(t', order', cutoff);
    forall x: Task
      ensures x !in c'
    {
      if x in c {
        var i :| 0 <= i < |c| && c[i] == x;
        assert c[..|c|][i].id in IdsOf(c[..|c|]);
      }
    }
    if c' != [] {
      HasMember(c');
      assert false;
    }
  }
}
