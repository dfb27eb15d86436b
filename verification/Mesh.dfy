/** The fabric planner: a validated manifest becomes a full mesh of peer links. */
module Mesh {
  import opened Common
  import opened Ordering

  datatype Platform = Macos | Linux | Termux | Windows

  datatype Architecture = Aarch64 | X8664

  /** `wellFormed` stands for the identity, desktop and allow-root checks of one node. */
  datatype Node = Node(id: Bytes, platform: Platform, architecture: Architecture, alias: Option<Bytes>,
                       wellFormed: bool)

  datatype Manifest = Manifest(initiator: Bytes, nodes: seq<Node>)

  datatype Link = Link(dialer: Bytes, peer: Bytes, alias: Option<Bytes>)

  predicate Supported(p: Platform, a: Architecture) {
    match p
    case Macos => a.Aarch64?
    case Linux => a.X8664?
    case Termux => true
    case Windows => a.X8664?
  }

  predicate NodeValid(m: Manifest, i: nat)
    requires i < |m.nodes|
  {
    var node := m.nodes[i];
    && node.wellFormed && (forall k :: 0 <= k < i ==> m.nodes[k].id != node.id)
    && (node.id != m.initiator ==> node.alias.Some?) && Supported(node.platform, node.architecture)
  }

  /** `load_fabric_manifest`. */
  predicate Valid(m: Manifest) {
    && m.nodes != [] && (forall i :: 0 <= i < |m.nodes| ==> NodeValid(m, i))
    && exists i :: 0 <= i < |m.nodes| && m.nodes[i].id == m.initiator
  }

  function Remotes(m: Manifest, n: nat): seq<Node>
    requires n <= |m.nodes|
  {
    if n == 0 then []
    else Remotes(m, n - 1) + if m.nodes[n - 1].id != m.initiator then [m.nodes[n - 1]] else []
  }

  function InitiatorLink(initiator: Bytes, node: Node): Link {
    if node.platform.Termux? then Link(node.id, initiator, node.alias) else Link(initiator, node.id, node.alias)
  }

  /** Whether the left of two remote nodes dials. */
  predicate LeftDials(left: Node, right: Node) {
    if left.platform.Termux? then true
    else if right.platform.Termux? then false
    else if !left.platform.Windows? && right.platform.Windows? then true
    else if left.platform.Windows? && !right.platform.Windows? then false
    else LexLeq(left.id, right.id)
  }

  function PairLink(left: Node, right: Node): Link {
    if LeftDials(left, right) then Link(left.id, right.id, right.alias) else Link(right.id, left.id, left.alias)
  }

  function InitiatorLinks(initiator: Bytes, remotes: seq<Node>, n: nat): (r: seq<Link>)
    requires n <= |remotes|
    ensures |r| == n
  {
    if n == 0 then [] else InitiatorLinks(initiator, remotes, n - 1) + [InitiatorLink(initiator, remotes[n - 1])]
  }

  /** Links from `remotes[i]` to the later nodes below `m`. */
  function Row(remotes: seq<Node>, i: nat, m: nat): (r: seq<Link>)
    requires i < m <= |remotes|
    ensures |r| == m - 1 - i
  {
    if m == i + 1 then [] else Row(remotes, i, m - 1) + [PairLink(remotes[i], remotes[m - 1])]
  }

  /** Links whose earlier end is among the first `n` remotes. */
  function Rows(remotes: seq<Node>, n: nat): seq<Link>
    requires n <= |remotes|
  {
    if n == 0 then [] else Rows(remotes, n - 1) + Row(remotes, n - 1, |remotes|)
  }

  function Plan(m: Manifest): seq<Link> {
    var remotes := Remotes(m, |m.nodes|);
    InitiatorLinks(m.initiator, remotes, |remotes|) + Rows(remotes, |remotes|)
  }

  /** `plan_fabric_manifest`, once the manifest is loaded. */
  method PlanLinks(m: Manifest) returns (links: seq<Link>)
    ensures links == Plan(m)
  {
    var remotes := [];
    for i := 0 to |m.nodes|
      invariant remotes == Remotes(m, i)
    {
      if m.nodes[i].id != m.initiator {
        remotes := remotes + [m.nodes[i]];
      }
    }
    links := [];
    for i := 0 to |remotes|
      invariant links == InitiatorLinks(m.initiator, remotes, i)
    {
      links := links + [InitiatorLink(m.initiator, remotes[i])];
    }
    ghost var first := links;
    for i := 0 to |remotes|
      invariant links == first + Rows(remotes, i)
    {
      ghost var before := links;
      for j := i + 1 to |remotes|
        invariant links == before + Row(remotes, i, j)
      {
        links := links + [PairLink(remotes[i], remotes[j])];
      }
    }
  }

  // ---------------------------------------------------------------------- theorems

  predicate Joins(link: Link, a: Bytes, b: Bytes) {
    (link.dialer == a && link.peer == b) || (link.dialer == b && link.peer == a)
  }

  function CountJoins(links: seq<Link>, a: Bytes, b: Bytes): nat {
    if links == [] then 0
    else
      var n := |links| - 1;
      CountJoins(links[..n], a, b) + if Joins(links[n], a, b) then 1 else 0
  }

  lemma {:induction false} CountOfConcat(x: seq<Link>, y: seq<Link>, a: Bytes, b: Bytes)
    ensures CountJoins(x + y, a, b) == CountJoins(x, a, b) + CountJoins(y, a, b)
  {
    if y == [] {
      assert x + y == x;
    } else {
      var n := |y| - 1;
      assert (x + y)[..|x + y| - 1] == x + y[..n];
      CountOfConcat(x, y[..n], a, b);
    }
  }

  lemma CountOfOne(link: Link, a: Bytes, b: Bytes)
    ensures CountJoins([link], a, b) == if Joins(link, a, b) then 1 else 0
  {
    assert [link][..0] == [];
  }

  lemma CountOfAppend(links: seq<Link>, link: Link, a: Bytes, b: Bytes)
    ensures CountJoins(links + [link], a, b) == CountJoins(links, a, b) + if Joins(link, a, b) then 1 else 0
  {
    CountOfConcat(links, [link], a, b);
    CountOfOne(link, a, b);
  }

  ghost predicate DistinctIds(nodes: seq<Node>) {
    forall i, j :: 0 <= i < j < |nodes| ==> nodes[i].id != nodes[j].id
  }

  lemma PairJoins(remotes: seq<Node>, i: nat, k: nat, p: nat, q: nat)
    requires DistinctIds(remotes) && i < k < |remotes| && p < q < |remotes|
    ensures Joins(PairLink(remotes[i], remotes[k]), remotes[p].id, remotes[q].id) <==> i == p && k == q
  {
    hide LeftDials;
    var link := PairLink(remotes[i], remotes[k]);
    assert {link.dialer, link.peer} == {remotes[i].id, remotes[k].id};
    assert i != p ==> remotes[i].id != remotes[p].id;
    assert k != q ==> remotes[k].id != remotes[q].id;
    assert i != q ==> remotes[i].id != remotes[q].id;
    assert k != p ==> remotes[k].id != remotes[p].id;
  }

  lemma RowExtends(remotes: seq<Node>, i: nat, m: nat)
    requires i + 1 < m <= |remotes|
    ensures Row(remotes, i, m) == Row(remotes, i, m - 1) + [PairLink(remotes[i], remotes[m - 1])]
  {
  }

  lemma {:induction false} RowJoins(remotes: seq<Node>, i: nat, m: nat, p: nat, q: nat)
    requires DistinctIds(remotes) && i < m <= |remotes| && p < q < |remotes|
    ensures CountJoins(Row(remotes, i, m), remotes[p].id, remotes[q].id) == if i == p && q < m then 1 else 0
    decreases m
  {
    if m > i + 1 {
      hide *;
      RowJoins(remotes, i, m - 1, p, q);
      RowExtends(remotes, i, m);
      CountOfAppend(Row(remotes, i, m - 1), PairLink(remotes[i], remotes[m - 1]), remotes[p].id, remotes[q].id);
      PairJoins(remotes, i, m - 1, p, q);
    } else {
      hide DistinctIds, PairLink;
    }
  }

  lemma RowsStep(remotes: seq<Node>, n: nat, p: nat, q: nat)
    requires DistinctIds(remotes) && 0 < n <= |remotes| && p < q < |remotes|
    ensures CountJoins(Rows(remotes, n), remotes[p].id, remotes[q].id)
            == CountJoins(Rows(remotes, n - 1), remotes[p].id, remotes[q].id) + if n - 1 == p then 1 else 0
  {
    hide CountJoins, DistinctIds, Row;
    RowJoins(remotes, n - 1, |remotes|, p, q);
    CountOfConcat(Rows(remotes, n - 1), Row(remotes, n - 1, |remotes|), remotes[p].id, remotes[q].id);
  }

  lemma {:induction false} RowsJoin(remotes: seq<Node>, n: nat, p: nat, q: nat)
    requires DistinctIds(remotes) && n <= |remotes| && p < q < |remotes|
    ensures CountJoins(Rows(remotes, n), remotes[p].id, remotes[q].id) == if p < n then 1 else 0
  {
    if n > 0 {
      hide *;
      RowsJoin(remotes, n - 1, p, q);
      RowsStep(remotes, n, p, q);
    }
  }

  ghost predicate Remote(initiator: Bytes, remotes: seq<Node>) {
    forall i :: 0 <= i < |remotes| ==> remotes[i].id != initiator
  }

  /** No link among the remotes touches the initiator. */
  lemma {:induction false} RowSkipsInitiator(initiator: Bytes, remotes: seq<Node>, i: nat, m: nat, b: Bytes)
    requires Remote(initiator, remotes) && i < m <= |remotes|
    ensures CountJoins(Row(remotes, i, m), initiator, b) == 0
    decreases m
  {
    if m > i + 1 {
      RowSkipsInitiator(initiator, remotes, i, m - 1, b);
      CountOfConcat(Row(remotes, i, m - 1), [PairLink(remotes[i], remotes[m - 1])], initiator, b);
      CountOfOne(PairLink(remotes[i], remotes[m - 1]), initiator, b);
    }
  }

  lemma {:induction false} RowsSkipInitiator(initiator: Bytes, remotes: seq<Node>, n: nat, b: Bytes)
    requires Remote(initiator, remotes) && n <= |remotes|
    ensures CountJoins(Rows(remotes, n), initiator, b) == 0
  {
    if n > 0 {
      RowsSkipInitiator(initiator, remotes, n - 1, b);
      RowSkipsInitiator(initiator, remotes, n - 1, |remotes|, b);
      CountOfConcat(Rows(remotes, n - 1), Row(remotes, n - 1, |remotes|), initiator, b);
    }
  }

  lemma {:induction false} InitiatorJoins(initiator: Bytes, remotes: seq<Node>, n: nat, q: nat)
    requires DistinctIds(remotes) && Remote(initiator, remotes) && n <= |remotes| && q < |remotes|
    ensures CountJoins(InitiatorLinks(initiator, remotes, n), initiator, remotes[q].id) == if q < n then 1 else 0
  {
    if n > 0 {
      InitiatorJoins(initiator, remotes, n - 1, q);
      var link := InitiatorLink(initiator, remotes[n - 1]);
      CountOfConcat(InitiatorLinks(initiator, remotes, n - 1), [link], initiator, remotes[q].id);
      CountOfOne(link, initiator, remotes[q].id);
    }
  }

  lemma {:induction false} InitiatorSkipsPairs(initiator: Bytes, remotes: seq<Node>, n: nat, a: Bytes, b: Bytes)
    requires n <= |remotes| && a != initiator && b != initiator
    ensures CountJoins(InitiatorLinks(initiator, remotes, n), a, b) == 0
  {
    if n > 0 {
      InitiatorSkipsPairs(initiator, remotes, n - 1, a, b);
      var link := InitiatorLink(initiator, remotes[n - 1]);
      CountOfConcat(InitiatorLinks(initiator, remotes, n - 1), [link], a, b);
      CountOfOne(link, a, b);
    }
  }

  lemma {:induction false} RemotesAreMembers(m: Manifest, n: nat)
    requires n <= |m.nodes|
    ensures forall x :: x in Remotes(m, n) <==> x.id != m.initiator && x in m.nodes[..n]
  {
    if n > 0 {
      RemotesAreMembers(m, n - 1);
      assert m.nodes[..n] == m.nodes[..n - 1] + [m.nodes[n - 1]];
    }
  }

  lemma {:induction false} RemotesAreDistinct(m: Manifest, n: nat)
    requires n <= |m.nodes| && forall i :: 0 <= i < |m.nodes| ==> NodeValid(m, i)
    ensures DistinctIds(Remotes(m, n)) && Remote(m.initiator, Remotes(m, n))
  {
    if n > 0 {
      RemotesAreDistinct(m, n - 1);
      RemotesAreMembers(m, n - 1);
      assert NodeValid(m, n - 1);
      var before := Remotes(m, n - 1);
      forall k | 0 <= k < |before|
        ensures before[k].id != m.nodes[n - 1].id
      {
        assert before[k] in before;
        var j :| 0 <= j < n - 1 && m.nodes[j] == before[k];
      }
    }
  }

  /** At most one node is the initiator. */
  lemma {:induction false} RemotesAreTheRest(m: Manifest, n: nat)
    requires n <= |m.nodes| && forall i :: 0 <= i < |m.nodes| ==> NodeValid(m, i)
    ensures |Remotes(m, n)| == n - if exists i :: 0 <= i < n && m.nodes[i].id == m.initiator then 1 else 0
  {
    if n > 0 {
      RemotesAreTheRest(m, n - 1);
      assert NodeValid(m, n - 1);
      if m.nodes[n - 1].id == m.initiator {
        assert forall i :: 0 <= i < n - 1 ==> m.nodes[i].id != m.initiator;
      }
    }
  }

  lemma CountIsSymmetric(links: seq<Link>, a: Bytes, b: Bytes)
    ensures CountJoins(links, a, b) == CountJoins(links, b, a)
  {
    if links != [] {
      CountIsSymmetric(links[..|links| - 1], a, b);
    }
  }

  lemma RemotesJoinedOnce(initiator: Bytes, remotes: seq<Node>, p: nat, q: nat)
    requires DistinctIds(remotes) && Remote(initiator, remotes) && p < |remotes| && q < |remotes| && p != q
    ensures CountJoins(InitiatorLinks(initiator, remotes, |remotes|) + Rows(remotes, |remotes|), remotes[p].id,
                       remotes[q].id) == 1
  {
    hide CountJoins, InitiatorLinks, Rows;
    var a, b := remotes[p].id, remotes[q].id;
    CountOfConcat(InitiatorLinks(initiator, remotes, |remotes|), Rows(remotes, |remotes|), a, b);
    InitiatorSkipsPairs(initiator, remotes, |remotes|, a, b);
    CountIsSymmetric(Rows(remotes, |remotes|), a, b);
    RowsJoin(remotes, |remotes|, if p < q then p else q, if p < q then q else p);
  }

  lemma InitiatorJoinedOnce(initiator: Bytes, remotes: seq<Node>, q: nat)
    requires DistinctIds(remotes) && Remote(initiator, remotes) && q < |remotes|
    ensures CountJoins(InitiatorLinks(initiator, remotes, |remotes|) + Rows(remotes, |remotes|), initiator,
                       remotes[q].id) == 1
  {
    hide CountJoins, InitiatorLinks, Rows;
    CountOfConcat(InitiatorLinks(initiator, remotes, |remotes|), Rows(remotes, |remotes|), initiator, remotes[q].id);
    InitiatorJoins(initiator, remotes, |remotes|, q);
    RowsSkipInitiator(initiator, remotes, |remotes|, remotes[q].id);
  }

  lemma IsRemote(m: Manifest, x: nat) returns (q: nat)
    requires Valid(m) && x < |m.nodes| && m.nodes[x].id != m.initiator
    ensures q < |Remotes(m, |m.nodes|)| && Remotes(m, |m.nodes|)[q] == m.nodes[x]
  {
    RemotesAreMembers(m, |m.nodes|);
    assert m.nodes[..|m.nodes|] == m.nodes;
    var remotes := Remotes(m, |m.nodes|);
    assert m.nodes[x] in remotes;
    q :| 0 <= q < |remotes| && remotes[q] == m.nodes[x];
  }

  /** In the plan of every valid manifest each pair of distinct nodes is joined by
      exactly one link. */
  lemma MeshIsComplete(m: Manifest, x: nat, y: nat)
    requires Valid(m) && x < |m.nodes| && y < |m.nodes| && x != y
    ensures CountJoins(Plan(m), m.nodes[x].id, m.nodes[y].id) == 1
  {
    assert NodeValid(m, x) && NodeValid(m, y);
    hide CountJoins, InitiatorLinks, Rows, NodeValid;
    RemotesAreDistinct(m, |m.nodes|);
    var remotes := Remotes(m, |m.nodes|);
    CountIsSymmetric(Plan(m), m.nodes[x].id, m.nodes[y].id);
    if m.nodes[x].id == m.initiator {
      var q := IsRemote(m, y);
      InitiatorJoinedOnce(m.initiator, remotes, q);
    } else if m.nodes[y].id == m.initiator {
      var p := IsRemote(m, x);
      InitiatorJoinedOnce(m.initiator, remotes, p);
    } else {
      var p := IsRemote(m, x);
      var q := IsRemote(m, y);
      RemotesJoinedOnce(m.initiator, remotes, p, q);
    }
  }

  lemma {:induction false} RowsLength(remotes: seq<Node>, n: nat)
    requires n <= |remotes|
    ensures 2 * |Rows(remotes, n)| == n * (2 * |remotes| - n - 1)
  {
    if n > 0 {
      RowsLength(remotes, n - 1);
      var k := |remotes|;
      assert n * (2 * k - n - 1) == (n - 1) * (2 * k - n) + 2 * (k - n);
    }
  }

  /** n nodes are planned n(n-1)/2 links, so no link is superfluous. */
  lemma MeshHasNoMore(m: Manifest)
    requires Valid(m)
    ensures 2 * |Plan(m)| == |m.nodes| * (|m.nodes| - 1)
  {
    RemotesAreTheRest(m, |m.nodes|);
    var remotes := Remotes(m, |m.nodes|);
    var k := |remotes|;
    assert k == |m.nodes| - 1;
    RowsLength(remotes, k);
    assert k * (2 * k - k - 1) == k * (k - 1);
    assert k * (k - 1) + 2 * k == (k + 1) * k;
  }

  /** Who dials between two remote nodes does not depend on their order in the manifest,
      unless both are Termux nodes, when it always does. */
  lemma DialerOrderFreeIff(a: Node, b: Node)
    requires a.id != b.id
    ensures PairLink(a, b) == PairLink(b, a) <==> !(a.platform.Termux? && b.platform.Termux?)
  {
    LexTotal(a.id, b.id);
    if LexLeq(a.id, b.id) && LexLeq(b.id, a.id) {
      LexAntisymmetric(a.id, b.id);
    }
  }

  // ------------------------------------------------------------------- who dials

  /** What the plan promises of the link from `x` to `y`: a Termux node is never dialed by any
      other kind, among remote nodes Windows dials nobody but Windows, nodes alike are dialed
      in name order, the initiator dials every other remote node, and the link carries the
      alias under which a remote node is reached. */
  predicate DialsRightly(initiator: Bytes, x: Node, y: Node, alias: Option<Bytes>) {
    && (y.platform.Termux? ==> x.platform.Termux?)
    && (x.id == initiator ==> !y.platform.Termux? && alias == y.alias)
    && (y.id == initiator ==> x.platform.Termux? && alias == x.alias)
    && (x.id != initiator && y.id != initiator ==>
          && alias == y.alias
          && (x.platform.Windows? ==> y.platform.Windows?)
          && (!x.platform.Termux? && (x.platform.Windows? <==> y.platform.Windows?) ==> LexLeq(x.id, y.id)))
  }

  ghost predicate IsPlanned(m: Manifest, link: Link) {
    exists x, y :: x in m.nodes && y in m.nodes && x.id == link.dialer && y.id == link.peer
                   && DialsRightly(m.initiator, x, y, link.alias)
  }

  lemma PairIsPlanned(m: Manifest, a: Node, b: Node)
    requires a in m.nodes && b in m.nodes && a.id != m.initiator && b.id != m.initiator
    ensures IsPlanned(m, PairLink(a, b))
  {
    LexTotal(a.id, b.id);
    if LeftDials(a, b) {
      assert DialsRightly(m.initiator, a, b, b.alias);
    } else {
      assert DialsRightly(m.initiator, b, a, a.alias);
    }
  }

  lemma InitiatorIsPlanned(m: Manifest, i: Node, a: Node)
    requires i in m.nodes && a in m.nodes && i.id == m.initiator && a.id != m.initiator
    ensures IsPlanned(m, InitiatorLink(m.initiator, a))
  {
    if a.platform.Termux? {
      assert DialsRightly(m.initiator, a, i, a.alias);
    } else {
      assert DialsRightly(m.initiator, i, a, a.alias);
    }
  }

  lemma {:induction false} RowIsPlanned(m: Manifest, remotes: seq<Node>, i: nat, n: nat)
    requires forall x :: x in remotes ==> x in m.nodes && x.id != m.initiator
    requires i < n <= |remotes|
    ensures forall link :: link in Row(remotes, i, n) ==> IsPlanned(m, link)
    decreases n
  {
    hide IsPlanned, PairLink;
    if n > i + 1 {
      RowIsPlanned(m, remotes, i, n - 1);
      assert remotes[i] in remotes && remotes[n - 1] in remotes;
      PairIsPlanned(m, remotes[i], remotes[n - 1]);
    }
  }

  lemma {:induction false} RowsArePlanned(m: Manifest, remotes: seq<Node>, n: nat)
    requires forall x :: x in remotes ==> x in m.nodes && x.id != m.initiator
    requires n <= |remotes|
    ensures forall link :: link in Rows(remotes, n) ==> IsPlanned(m, link)
  {
    hide IsPlanned;
    if n > 0 {
      RowsArePlanned(m, remotes, n - 1);
      RowIsPlanned(m, remotes, n - 1, |remotes|);
    }
  }

  lemma {:induction false} InitiatorLinksArePlanned(m: Manifest, remotes: seq<Node>, i: Node, n: nat)
    requires forall x :: x in remotes ==> x in m.nodes && x.id != m.initiator
    requires n <= |remotes| && i in m.nodes && i.id == m.initiator
    ensures forall link :: link in InitiatorLinks(m.initiator, remotes, n) ==> IsPlanned(m, link)
  {
    hide IsPlanned, InitiatorLink;
    if n > 0 {
      InitiatorLinksArePlanned(m, remotes, i, n - 1);
      assert remotes[n - 1] in remotes;
      InitiatorIsPlanned(m, i, remotes[n - 1]);
    }
  }

  /** Every link of the plan of a valid manifest joins two of its nodes and is dialed from the
      right end, with the right alias. */
  lemma EveryLinkDialsRightly(m: Manifest, link: Link)
    requires Valid(m) && link in Plan(m)
    ensures IsPlanned(m, link)
  {
    var n := |m.nodes|;
    RemotesAreMembers(m, n);
    assert m.nodes[..n] == m.nodes;
    var remotes := Remotes(m, n);
    var i :| 0 <= i < n && m.nodes[i].id == m.initiator;
    InitiatorLinksArePlanned(m, remotes, m.nodes[i], |remotes|);
    RowsArePlanned(m, remotes, |remotes|);
  }

  lemma SupportedIff(p: Platform, a: Architecture)
    ensures Supported(p, a) <==>
            (p, a) in {(Macos, Aarch64), (Linux, X8664), (Termux, Aarch64), (Termux, X8664), (Windows, X8664)}
  {
    match (p, a) {
      case (Macos, Aarch64) =>
      case (Macos, X8664) =>
      case (Linux, Aarch64) =>
      case (Linux, X8664) =>
      case (Termux, Aarch64) =>
      case (Termux, X8664) =>
      case (Windows, Aarch64) =>
      case (Windows, X8664) =>
    }
  }

  /** What is asked of one node, whatever the others are. */
  predicate StandsAlone(node: Node, initiator: Bytes) {
    && node.wellFormed && (node.id != initiator ==> node.alias.Some?)
    && (node.platform, node.architecture)
       in {(Macos, Aarch64), (Linux, X8664), (Termux, Aarch64), (Termux, X8664), (Windows, X8664)}
  }

  /** A manifest is valid exactly when each of its nodes is well formed, of a supported kind
      and, if remote, has an alias, no two are alike in name, and one is the initiator. */
  lemma ManifestValidIff(m: Manifest)
    ensures Valid(m) <==>
            && (exists i :: 0 <= i < |m.nodes| && m.nodes[i].id == m.initiator)
            && DistinctIds(m.nodes) && forall i :: 0 <= i < |m.nodes| ==> StandsAlone(m.nodes[i], m.initiator)
  {
    forall i | 0 <= i < |m.nodes|
      ensures NodeValid(m, i) <==>
              StandsAlone(m.nodes[i], m.initiator) && forall k :: 0 <= k < i ==> m.nodes[k].id != m.nodes[i].id
    {
      SupportedIff(m.nodes[i].platform, m.nodes[i].architecture);
    }
    hide StandsAlone;
    if Valid(m) {
      forall i, j | 0 <= i < j < |m.nodes|
        ensures m.nodes[i].id != m.nodes[j].id
      {
        assert NodeValid(m, j);
      }
    }
  }
}
