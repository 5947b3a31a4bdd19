/** Owned descendants of verified roots in one process snapshot, deepest first. */
module ProcessTree {
  import opened Common

  datatype Node = Node(pid: int, parent: int, group: int, session: int, birth: string, state: string)

  /** A snapshot, in the order its entries were read; each pid occurs once. */
  type Table = seq<Node>

  predicate Snapshot(t: Table) {
    t == [] || (Snapshot(t[..|t| - 1]) && t[|t| - 1].pid !in Pids(t[..|t| - 1]))
  }

  function Pids(t: Table): set<int> { set n | n in t :: n.pid }

  function Lookup(t: Table, pid: int): (n: Option<Node>)
    ensures n.Some? ==> n.value in t && n.value.pid == pid
    ensures n.None? ==> forall m | m in t :: m.pid != pid
  {
    if t == [] then None
    else if t[|t| - 1].pid == pid then Some(t[|t| - 1])
    else
      assert t == t[..|t| - 1] + [t[|t| - 1]];
      Lookup(t[..|t| - 1], pid)
  }

  lemma {:induction false} LookupIs(t: Table, n: Node)
    requires Snapshot(t) && n in t
    ensures Lookup(t, n.pid) == Some(n)
  {
    var init, last := t[..|t| - 1], t[|t| - 1];
    assert t == init + [last];
    if n != last { LookupIs(init, n); }
  }

  /** No pid occurs twice in a snapshot. */
  lemma {:induction false} SnapshotDistinct(t: Table)
    requires Snapshot(t)
    ensures forall i, j | 0 <= i < j < |t| :: t[i].pid != t[j].pid
  {
    if t != [] {
      SnapshotDistinct(t[..|t| - 1]);
      assert forall i | 0 <= i < |t| - 1 :: t[i] in t[..|t| - 1];
    }
  }

  // ---------------------------------------------------------------- ownership

  /** The `k`-th ancestor of `pid` through the table's parent links. */
  function Up(t: Table, pid: int, k: nat): Option<int>
    decreases k
  {
    if k == 0 then Some(pid)
    else
      var n := Lookup(t, pid);
      if n.None? then None else Up(t, n.value.parent, k - 1)
  }

  /** A root whose snapshot still carries its recorded birth id. */
  predicate Verified(t: Table, roots: map<int, string>, pid: int) {
    pid in roots && roots[pid] != "" && Lookup(t, pid).Some? && Lookup(t, pid).value.birth == roots[pid]
  }

  ghost predicate Owned(t: Table, roots: map<int, string>, n: Node) {
    n in t && exists k, r :: Up(t, n.pid, k) == Some(r) && Verified(t, roots, r)
  }

  lemma {:induction false} UpStep(t: Table, n: Node, k: nat)
    requires Snapshot(t) && n in t
    ensures Up(t, n.pid, k + 1) == Up(t, n.parent, k)
  {
    LookupIs(t, n);
  }

  // ---------------------------------------------------------------- the walk

  function Group(children: map<int, seq<Node>>, pid: int): seq<Node> {
    if pid in children then children[pid] else []
  }

  /** The table's nodes grouped by parent, in table order. */
  function Grouped(t: Table): map<int, seq<Node>> {
    if t == [] then map[]
    else
      var children, n := Grouped(t[..|t| - 1]), t[|t| - 1];
      children[n.parent := Group(children, n.parent) + [n]]
  }

  lemma {:induction false} GroupHolds(t: Table, pid: int)
    ensures forall n :: n in Group(Grouped(t), pid) <==> n in t && n.parent == pid
  {
    if t != [] {
      GroupHolds(t[..|t| - 1], pid);
      assert t == t[..|t| - 1] + [t[|t| - 1]];
    }
  }

  method GroupByParent(t: Table) returns (children: map<int, seq<Node>>)
    ensures children == Grouped(t)
  {
    children := map[];
    for i := 0 to |t|
      invariant children == Grouped(t[..i])
    {
      assert t[..i + 1][..i] == t[..i];
      children := children[t[i].parent := Group(children, t[i].parent) + [t[i]]];
    }
    assert t[..|t|] == t;
  }

  /** The nodes in `seen` are closed under children, except for those whose children are still being walked. */
  ghost predicate ClosedExcept(t: Table, seen: set<int>, open: set<int>) {
    forall n | n in t && n.parent in seen && n.parent !in open :: n.pid in seen
  }

  /** `ordered` lists the visited nodes, each once. */
  predicate Visited(seen: set<int>, ordered: seq<Node>) { seen == Pids(ordered) && Snapshot(ordered) }

  lemma VisitOne(seen: set<int>, ordered: seq<Node>, n: Node)
    requires Visited(seen, ordered) && n.pid !in seen
    ensures Visited(seen + {n.pid}, ordered + [n])
  {
    assert (ordered + [n])[..|ordered|] == ordered;
  }

  /** Once its children have all been seen, a node stops being an exception. */
  lemma CloseNode(t: Table, seen: set<int>, open: set<int>, pid: int, below: seq<Node>)
    requires ClosedExcept(t, seen, open + {pid}) && below == Group(Grouped(t), pid)
    requires forall k | 0 <= k < |below| :: below[k].pid in seen
    ensures ClosedExcept(t, seen, open)
  {
    GroupHolds(t, pid);
    forall n | n in t && n.parent == pid ensures n.pid in seen {
      assert n in below;
    }
  }

  class Walker {
    const table: Table
    const children: map<int, seq<Node>>
    var seen: set<int>
    var ordered: seq<Node>

    constructor (table: Table, children: map<int, seq<Node>>)
      ensures this.table == table && this.children == children && seen == {} && ordered == []
    {
      this.table, this.children, seen, ordered := table, children, {}, [];
    }

    /** Visits `node` and everything below it that was not seen before, and stays inside any closed set `owned`. */
    method Walk(node: Node, ghost owned: set<int>, ghost open: set<int>)
      requires children == Grouped(table) && node in table
      requires node.pid in owned && ClosedExcept(table, owned, {})
      requires Visited(seen, ordered) && seen <= owned && ClosedExcept(table, seen, open)
      requires forall n | n in ordered :: n in table
      modifies this
      ensures Visited(seen, ordered) && seen <= owned && ClosedExcept(table, seen, open)
      ensures forall n | n in ordered :: n in table
      ensures node.pid in seen && old(seen) <= seen
      decreases Pids(table) - seen, 0
    {
      if node.pid in seen { return; }
      assert node.pid in Pids(table);
      VisitOne(seen, ordered, node);
      seen := seen + {node.pid};
      ordered := ordered + [node];
      var below := Group(children, node.pid);
      GroupHolds(table, node.pid);
      WalkChildren(node.pid, below, owned, open + {node.pid});
      CloseNode(table, seen, open, node.pid, below);
    }

    method WalkChildren(pid: int, below: seq<Node>, ghost owned: set<int>, ghost open: set<int>)
      requires children == Grouped(table) && pid in seen
      requires forall n | n in below :: n in table && n.parent == pid
      requires ClosedExcept(table, owned, {})
      requires Visited(seen, ordered) && seen <= owned && ClosedExcept(table, seen, open)
      requires forall n | n in ordered :: n in table
      modifies this
      ensures Visited(seen, ordered) && seen <= owned && ClosedExcept(table, seen, open)
      ensures forall n | n in ordered :: n in table
      ensures old(seen) <= seen && forall k | 0 <= k < |below| :: below[k].pid in seen
      decreases Pids(table) - seen, 1
    {
      for i := 0 to |below|
        invariant Visited(seen, ordered) && seen <= owned && ClosedExcept(table, seen, open)
        invariant forall n | n in ordered :: n in table
        invariant old(seen) <= seen && forall k | 0 <= k < i :: below[k].pid in seen
      {
        var child := below[i];
        assert child in below;
        if child.pid != pid { Walk(child, owned, open); }
      }
    }

    /** Visits the roots that verify. */
    method WalkRoots(roots: map<int, string>, rootPids: seq<int>, ghost owned: set<int>)
      requires children == Grouped(table) && seen == {} && ordered == []
      requires forall pid :: pid in rootPids <==> pid in roots
      requires ClosedExcept(table, owned, {}) && forall pid | Verified(table, roots, pid) :: pid in owned
      modifies this
      ensures Visited(seen, ordered) && seen <= owned && ClosedExcept(table, seen, {})
      ensures forall n | n in ordered :: n in table
      ensures forall pid | Verified(table, roots, pid) :: pid in seen
    {
      for i := 0 to |rootPids|
        invariant Visited(seen, ordered) && seen <= owned && ClosedExcept(table, seen, {})
        invariant forall n | n in ordered :: n in table
        invariant forall k | 0 <= k < i :: Verified(table, roots, rootPids[k]) ==> rootPids[k] in seen
      {
        assert rootPids[i] in rootPids;
        if Verified(table, roots, rootPids[i]) {
          Walk(Lookup(table, rootPids[i]).value, owned, {});
        }
      }
    }
  }

  lemma OwnedChild(t: Table, roots: map<int, string>, n: Node, child: Node)
    requires Snapshot(t) && Owned(t, roots, n) && child in t && child.parent == n.pid
    ensures Owned(t, roots, child)
  {
    var k, r :| Up(t, n.pid, k) == Some(r) && Verified(t, roots, r);
    UpStep(t, child, k);
  }

  /** A set closed under children that holds every verified root holds every owned node. */
  lemma {:induction false} ClosedHoldsOwned(t: Table, roots: map<int, string>, seen: set<int>, n: Node, k: nat, r: int)
    requires Snapshot(t) && n in t && Up(t, n.pid, k) == Some(r) && Verified(t, roots, r)
    requires ClosedExcept(t, seen, {}) && forall pid | Verified(t, roots, pid) :: pid in seen
    ensures n.pid in seen
    decreases k
  {
    if k > 0 {
      UpStep(t, n, k - 1);
      if k == 1 {
        assert n.parent == r;
      } else {
        var m := Lookup(t, n.parent).value;
        ClosedHoldsOwned(t, roots, seen, m, k - 1, r);
      }
    }
  }

  ghost function OwnedPids(t: Table, roots: map<int, string>): set<int> {
    set n | n in t && Owned(t, roots, n) :: n.pid
  }

  lemma OwnedIsClosed(t: Table, roots: map<int, string>)
    requires Snapshot(t)
    ensures ClosedExcept(t, OwnedPids(t, roots), {})
    ensures forall pid | Verified(t, roots, pid) :: pid in OwnedPids(t, roots)
  {
    var owned := OwnedPids(t, roots);
    forall n | n in t && n.parent in owned ensures n.pid in owned {
      var m :| m in t && Owned(t, roots, m) && m.pid == n.parent;
      OwnedChild(t, roots, m, n);
    }
    forall pid | Verified(t, roots, pid) ensures pid in owned {
      assert Up(t, pid, 0) == Some(pid);
      assert Owned(t, roots, Lookup(t, pid).value);
    }
  }

  /** The closed set a walk from all verified roots visits is exactly what they own. */
  lemma VisitedIsOwned(t: Table, roots: map<int, string>, seen: set<int>, ordered: seq<Node>, n: Node)
    requires Snapshot(t) && Visited(seen, ordered) && (forall m | m in ordered :: m in t)
    requires seen <= OwnedPids(t, roots) && ClosedExcept(t, seen, {})
    requires forall pid | Verified(t, roots, pid) :: pid in seen
    ensures n in ordered <==> Owned(t, roots, n)
  {
    if n in ordered {
      assert n.pid in seen;
      var m :| m in t && Owned(t, roots, m) && m.pid == n.pid;
      LookupIs(t, n);
      LookupIs(t, m);
    }
    if Owned(t, roots, n) {
      var k, r :| Up(t, n.pid, k) == Some(r) && Verified(t, roots, r);
      ClosedHoldsOwned(t, roots, seen, n, k, r);
      var m :| m in ordered && m.pid == n.pid;
      LookupIs(t, n);
      LookupIs(t, m);
    }
  }

  // ---------------------------------------------------------------- depths

  /** A rank that falls along every parent link: parent chains have no cycle but self-links. */
  ghost predicate Ranked(t: Table, rank: int -> nat) {
    forall n | n in t && n.parent in Pids(t) && n.parent != n.pid :: rank(n.parent) < rank(n.pid)
  }

  ghost predicate Acyclic(t: Table) { exists rank :: Ranked(t, rank) }

  function ParentIn(t: Table, seen: set<int>, pid: int): Option<int> {
    var n := Lookup(t, pid);
    if n.Some? && n.value.parent in seen && n.value.parent != pid then Some(n.value.parent) else None
  }

  /** Links from `pid` up to the topmost seen ancestor. */
  ghost function Depth(t: Table, seen: set<int>, rank: int -> nat, pid: int): nat
    decreases rank(pid)
  {
    var up := ParentIn(t, seen, pid);
    if up.Some? && rank(up.value) < rank(pid) then Depth(t, seen, rank, up.value) + 1 else 0
  }

  ghost predicate DepthsRight(t: Table, seen: set<int>, rank: int -> nat, depths: map<int, int>, open: set<int>) {
    forall p | p in depths && p !in open :: depths[p] == Depth(t, seen, rank, p)
  }

  class DepthMemo {
    const table: Table
    const seen: set<int>
    var depths: map<int, int>

    constructor (table: Table, seen: set<int>)
      ensures this.table == table && this.seen == seen && depths == map[]
    {
      this.table, this.seen, depths := table, seen, map[];
    }

    /** Memoised depth; the early zero breaks cycles, so it ends on every table. */
    method DepthOf(pid: int, ghost rank: int -> nat, ghost open: set<int>) returns (d: int)
      requires pid in seen && seen <= Pids(table)
      requires Ranked(table, rank) ==> DepthsRight(table, seen, rank, depths, open)
      requires Ranked(table, rank) ==> forall p | p in open :: rank(pid) < rank(p)
      modifies this
      ensures pid in depths && old(depths.Keys) <= depths.Keys && d == depths[pid]
      ensures Ranked(table, rank) ==> d == Depth(table, seen, rank, pid) && DepthsRight(table, seen, rank, depths, open)
      decreases seen - depths.Keys
    {
      if pid in depths { return depths[pid]; }
      depths := depths[pid := 0];
      var up := ParentIn(table, seen, pid);
      if up.Some? {
        assert pid in seen - old(depths.Keys) && pid !in seen - depths.Keys;
        var above := DepthOf(up.value, rank, open + {pid});
        depths := depths[pid := above + 1];
      }
      d := depths[pid];
    }
  }

  // ---------------------------------------------------------------- deepest first

  predicate Before(depths: map<int, int>, a: Node, b: Node)
    requires a.pid in depths && b.pid in depths
  {
    depths[a.pid] > depths[b.pid] || (depths[a.pid] == depths[b.pid] && a.pid <= b.pid)
  }

  predicate DepthsFor(depths: map<int, int>, xs: seq<Node>) { forall n | n in xs :: n.pid in depths }

  predicate Deepest(depths: map<int, int>, xs: seq<Node>)
    requires DepthsFor(depths, xs)
  {
    forall i, j | 0 <= i < j < |xs| :: depths[xs[i].pid] >= depths[xs[j].pid]
  }

  /** Inserts `n` into a list kept in sort order. */
  function InsertNode(depths: map<int, int>, xs: seq<Node>, n: Node): (ys: seq<Node>)
    requires DepthsFor(depths, xs) && n.pid in depths
    ensures forall m :: m in ys <==> m in xs || m == n
    ensures DepthsFor(depths, ys)
  {
    if xs == [] then [n]
    else
      var init, last := xs[..|xs| - 1], xs[|xs| - 1];
      assert xs == init + [last];
      if Before(depths, last, n) then xs + [n] else InsertNode(depths, init, n) + [last]
  }

  lemma {:induction false} InsertKeepsOrder(depths: map<int, int>, xs: seq<Node>, n: Node)
    requires DepthsFor(depths, xs) && n.pid in depths && Deepest(depths, xs)
    ensures Deepest(depths, InsertNode(depths, xs, n))
  {
    if xs != [] && !Before(depths, xs[|xs| - 1], n) {
      var init, last := xs[..|xs| - 1], xs[|xs| - 1];
      assert xs == init + [last];
      InsertKeepsOrder(depths, init, n);
      var ys := InsertNode(depths, init, n);
      forall i | 0 <= i < |ys| ensures depths[ys[i].pid] >= depths[last.pid] {
        assert ys[i] in ys;
      }
    }
  }

  lemma {:induction false} InsertKeepsPids(depths: map<int, int>, xs: seq<Node>, n: Node)
    requires DepthsFor(depths, xs) && n.pid in depths && Snapshot(xs) && n.pid !in Pids(xs)
    ensures Snapshot(InsertNode(depths, xs, n))
  {
    if xs == [] {
      assert [n][..0] == [];
    } else {
      var init, last := xs[..|xs| - 1], xs[|xs| - 1];
      assert xs == init + [last];
      if Before(depths, last, n) {
        assert (xs + [n])[..|xs|] == xs;
      } else {
        InsertKeepsPids(depths, init, n);
        var ys := InsertNode(depths, init, n);
        assert (ys + [last])[..|ys|] == ys;
      }
    }
  }

  method SortDeepestFirst(depths: map<int, int>, xs: seq<Node>) returns (ys: seq<Node>)
    requires DepthsFor(depths, xs) && Snapshot(xs)
    ensures forall n :: n in ys <==> n in xs
    ensures DepthsFor(depths, ys) && Snapshot(ys) && Deepest(depths, ys)
  {
    ys := [];
    for i := 0 to |xs|
      invariant forall n :: n in ys <==> n in xs[..i]
      invariant Snapshot(xs[..i]) && DepthsFor(depths, ys) && Snapshot(ys) && Deepest(depths, ys)
    {
      assert xs[..i + 1] == xs[..i] + [xs[i]];
      PrefixSnapshot(xs, i + 1);
      assert xs[..i + 1][..i] == xs[..i];
      InsertKeepsOrder(depths, ys, xs[i]);
      InsertKeepsPids(depths, ys, xs[i]);
      ys := InsertNode(depths, ys, xs[i]);
    }
    assert xs[..|xs|] == xs;
  }

  lemma {:induction false} PrefixSnapshot(xs: seq<Node>, i: nat)
    requires Snapshot(xs) && i <= |xs|
    ensures Snapshot(xs[..i])
  {
    if i == |xs| {
      assert xs[..i] == xs;
    } else {
      assert xs[..|xs| - 1][..i] == xs[..i];
      PrefixSnapshot(xs[..|xs| - 1], i);
    }
  }

  method PidsOf(roots: map<int, string>) returns (pids: seq<int>)
    ensures forall pid :: pid in pids <==> pid in roots
  {
    pids := [];
    var rest: set<int> := roots.Keys;
    while exists p :: p in rest
      invariant rest <= roots.Keys
      invariant forall p :: p in pids <==> p in roots.Keys - rest
      decreases rest
    {
      var pid :| pid in rest;
      pids := pids + [pid];
      rest := rest - {pid};
    }
  }

  ghost predicate ChildrenFirst(nodes: seq<Node>) {
    forall i, j | 0 <= i < |nodes| && 0 <= j < |nodes| && nodes[j].pid == nodes[i].parent && i != j :: i < j
  }

  lemma DeepestIsChildrenFirst(t: Table, seen: set<int>, rank: int -> nat, depths: map<int, int>, nodes: seq<Node>)
    requires Snapshot(t) && Ranked(t, rank) && Snapshot(nodes) && seen == Pids(nodes) && forall n | n in nodes :: n in t
    requires DepthsFor(depths, nodes) && DepthsRight(t, seen, rank, depths, {}) && Deepest(depths, nodes)
    ensures ChildrenFirst(nodes)
  {
    SnapshotDistinct(nodes);
    forall i, j | 0 <= i < |nodes| && 0 <= j < |nodes| && nodes[j].pid == nodes[i].parent && i != j ensures i < j {
      var child, parent := nodes[i], nodes[j];
      assert child in nodes && parent in nodes;
      LookupIs(t, child);
      assert parent.pid in Pids(t);
      assert ParentIn(t, seen, child.pid) == Some(parent.pid);
      assert Depth(t, seen, rank, child.pid) == Depth(t, seen, rank, parent.pid) + 1;
    }
  }

  method WalkAll(t: Table, roots: map<int, string>) returns (ordered: seq<Node>, seen: set<int>)
    requires Snapshot(t)
    ensures Visited(seen, ordered) && seen <= Pids(t)
    ensures forall n :: n in ordered <==> Owned(t, roots, n)
  {
    var children := GroupByParent(t);
    var walker := new Walker(t, children);
    var rootPids := PidsOf(roots);
    OwnedIsClosed(t, roots);
    walker.WalkRoots(roots, rootPids, OwnedPids(t, roots));
    ordered, seen := walker.ordered, walker.seen;
    forall n ensures n in ordered <==> Owned(t, roots, n) { VisitedIsOwned(t, roots, seen, ordered, n); }
  }

  ghost function SomeRank(t: Table): (rank: int -> nat)
    ensures Acyclic(t) ==> Ranked(t, rank)
  {
    if Acyclic(t) then (var r :| Ranked(t, r); r) else (_ => 0)
  }

  /**
   Exactly the nodes of the snapshot reachable as descendants of the roots whose birth id agrees,
   each once. When parent chains have no cycle, every node comes before its parent.
   */
  method CollectOwnedDescendants(t: Table, roots: map<int, string>) returns (nodes: seq<Node>)
    requires Snapshot(t)
    ensures forall n :: n in nodes <==> Owned(t, roots, n)
    ensures forall i, j | 0 <= i < j < |nodes| :: nodes[i].pid != nodes[j].pid
    ensures Acyclic(t) ==> ChildrenFirst(nodes)
  {
    var ordered, seen := WalkAll(t, roots);
    var depths := DepthsOfAll(t, seen, ordered, SomeRank(t));
    nodes := SortDeepestFirst(depths, ordered);
    SnapshotDistinct(nodes);
    if Acyclic(t) {
      assert Pids(nodes) == seen;
      forall n | n in nodes ensures n in t { assert Owned(t, roots, n); }
      DeepestIsChildrenFirst(t, seen, SomeRank(t), depths, nodes);
    }
  }

  method DepthsOfAll(t: Table, seen: set<int>, ordered: seq<Node>, ghost rank: int -> nat)
    returns (depths: map<int, int>)
    requires seen == Pids(ordered) && seen <= Pids(t)
    ensures DepthsFor(depths, ordered)
    ensures Ranked(t, rank) ==> DepthsRight(t, seen, rank, depths, {})
  {
    hide Ranked;
    var memo := new DepthMemo(t, seen);
    for i := 0 to |ordered|
      invariant forall k | 0 <= k < i :: ordered[k].pid in memo.depths
      invariant Ranked(t, rank) ==> DepthsRight(t, seen, rank, memo.depths, {})
    {
      assert ordered[i] in ordered;
      var _ := memo.DepthOf(ordered[i].pid, rank, {});
    }
    depths := memo.depths;
  }
}
