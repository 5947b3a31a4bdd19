/** Reachability of documents through Markdown links, and the nearest reachable neighbour of an orphan. */
module DocLinks {
  import opened Common

  /** A document; its number stands for its place in path order. */
  type Doc = nat
  type Graph = map<Doc, set<Doc>>

  function Targets(graph: Graph, d: Doc): set<Doc> { if d in graph then graph[d] else {} }

  // ---------------------------------------------------------------- reachable within a number of hops

  /** `p` follows links from document to document. */
  ghost predicate LinkPath(graph: Graph, p: seq<Doc>) {
    p != [] && forall i | 0 < i < |p| :: p[i] in Targets(graph, p[i - 1])
  }

  /** Some root reaches `d` over at most `hops` links. */
  ghost predicate Within(graph: Graph, roots: set<Doc>, hops: nat, d: Doc) {
    exists p :: LinkPath(graph, p) && p[0] in roots && p[|p| - 1] == d && |p| <= hops + 1
  }

  lemma WithinRoots(graph: Graph, roots: set<Doc>, d: Doc)
    ensures Within(graph, roots, 0, d) <==> d in roots
  {
    if d in roots { assert LinkPath(graph, [d]); }
  }

  lemma WithinStep(graph: Graph, roots: set<Doc>, hops: nat, d: Doc)
    ensures Within(graph, roots, hops + 1, d) <==>
            Within(graph, roots, hops, d) || exists s :: Within(graph, roots, hops, s) && d in Targets(graph, s)
  {
    if Within(graph, roots, hops + 1, d) {
      var p :| LinkPath(graph, p) && p[0] in roots && p[|p| - 1] == d && |p| <= hops + 2;
      if |p| == hops + 2 {
        var q := p[..|p| - 1];
        assert LinkPath(graph, q) && q[0] == p[0] && q[|q| - 1] == p[|p| - 2];
      }
    }
    if s :| Within(graph, roots, hops, s) && d in Targets(graph, s) {
      var p :| LinkPath(graph, p) && p[0] in roots && p[|p| - 1] == s && |p| <= hops + 1;
      var q := p + [d];
      assert LinkPath(graph, q) && q[0] == p[0] && q[|q| - 1] == d;
    }
  }

  /** Exactly the documents some root reaches within `maxHops` links, on any graph, cyclic or not. */
  method ReachableDocuments(graph: Graph, roots: set<Doc>, maxHops: nat) returns (reached: set<Doc>)
    ensures forall d :: d in reached <==> Within(graph, roots, maxHops, d)
  {
    reached := roots;
    var frontier := roots;
    forall d ensures d in reached <==> Within(graph, roots, 0, d) { WithinRoots(graph, roots, d); }
    for hops := 0 to maxHops
      invariant forall d :: d in reached <==> Within(graph, roots, hops, d)
      invariant frontier <= reached
      invariant forall s, d | s in reached && s !in frontier && d in Targets(graph, s) :: d in reached
    {
      forall d
        ensures Within(graph, roots, hops + 1, d)
                <==> d in reached || exists s :: s in reached && d in Targets(graph, s)
      {
        WithinStep(graph, roots, hops, d);
      }
      frontier :=
        set source, target | source in frontier && target in Targets(graph, source) && target !in reached :: target;
      reached := reached + frontier;
    }
  }

  // ---------------------------------------------------------------- nearest reachable neighbour

  predicate Linked(graph: Graph, a: Doc, b: Doc) { b in Targets(graph, a) || a in Targets(graph, b) }

  /** An undirected walk of exactly `n` links from `a` to `b`. */
  ghost predicate Walk(graph: Graph, a: Doc, b: Doc, n: nat)
    decreases n
  {
    if n == 0 then a == b
    else exists m :: Walk(graph, a, m, n - 1) && Linked(graph, m, b)
  }

  /** Adds `source` to the neighbours of each of `targets`. */
  method AddReversed(neighbours: Graph, source: Doc, targets: set<Doc>) returns (after: Graph)
    ensures forall a :: Targets(after, a) == Targets(neighbours, a) + (if a in targets then {source} else {})
  {
    after := neighbours;
    var rest := targets;
    while rest != {}
      invariant rest <= targets
      invariant forall a :: Targets(after, a) == Targets(neighbours, a) + (if a in targets - rest then {source} else {})
    {
      var target :| target in rest;
      after := after[target := Targets(after, target) + {source}];
      rest := rest - {target};
    }
  }

  function Backlinks(graph: Graph, sources: set<Doc>, a: Doc): set<Doc> {
    set b | b in sources && a in Targets(graph, b)
  }

  /** The undirected neighbour map: every link, and every link reversed. */
  method Neighbours(graph: Graph) returns (neighbours: Graph)
    ensures forall a, b :: b in Targets(neighbours, a) <==> Linked(graph, a, b)
  {
    neighbours := graph;
    var sources := graph.Keys;
    while sources != {}
      invariant sources <= graph.Keys
      invariant forall a :: Targets(neighbours, a) == Targets(graph, a) + Backlinks(graph, graph.Keys - sources, a)
    {
      var source :| source in sources;
      neighbours := AddReversed(neighbours, source, graph[source]);
      forall a
        ensures Backlinks(graph, graph.Keys - (sources - {source}), a)
                == Backlinks(graph, graph.Keys - sources, a) + (if a in graph[source] then {source} else {})
      {
      }
      sources := sources - {source};
    }
    forall a, b ensures b in Targets(neighbours, a) <==> Linked(graph, a, b) {
      assert Targets(neighbours, a) == Targets(graph, a) + Backlinks(graph, graph.Keys, a);
    }
  }

  /** Depths recorded so far are lengths of walks from the orphan, and nothing visited is reachable. */
  ghost predicate Found(graph: Graph, orphan: Doc, reachable: set<Doc>, depth: map<Doc, nat>) {
    && orphan in depth && depth[orphan] == 0
    && forall v | v in depth :: Walk(graph, orphan, v, depth[v]) && v !in reachable
  }

  /** The queue holds exactly the visited documents not yet done, nearest first, within one step of depth. */
  ghost predicate Queued(queue: seq<Doc>, done: set<Doc>, depth: map<Doc, nat>) {
    && Distinct(queue)
    && (forall v :: v in queue <==> v in depth && v !in done)
    && (forall i, j | 0 <= i < j < |queue| :: depth[queue[i]] <= depth[queue[j]] <= depth[queue[0]] + 1)
    && (forall p, v | p in done && p in depth && v in queue :: depth[p] <= depth[v])
  }

  /** Every link out of a processed document leads to a visited one, at most one step deeper. */
  ghost predicate Explored(graph: Graph, done: set<Doc>, depth: map<Doc, nat>) {
    forall p, w | p in done && p in depth && Linked(graph, p, w) :: w in depth && depth[w] <= depth[p] + 1
  }

  /** Documents no farther than every waiting one have been visited, at no more than their distance. */
  lemma {:induction false} NearerVisited(graph: Graph, orphan: Doc, done: set<Doc>, depth: map<Doc, nat>, d: nat,
                                         w: Doc, n: nat)
    requires orphan in depth && depth[orphan] == 0 && Explored(graph, done, depth)
    requires forall v | v in depth && v !in done :: d <= depth[v]
    requires Walk(graph, orphan, w, n) && n <= d
    ensures w in depth && depth[w] <= n
    decreases n
  {
    if n > 0 {
      var m :| Walk(graph, orphan, m, n - 1) && Linked(graph, m, w);
      NearerVisited(graph, orphan, done, depth, d, m, n - 1);
      assert m in done;
    }
  }

  lemma {:induction false} ComponentVisited(graph: Graph, orphan: Doc, depth: map<Doc, nat>, w: Doc, n: nat)
    requires orphan in depth && Explored(graph, depth.Keys, depth) && Walk(graph, orphan, w, n)
    ensures w in depth
    decreases n
  {
    if n > 0 {
      var m :| Walk(graph, orphan, m, n - 1) && Linked(graph, m, w);
      ComponentVisited(graph, orphan, depth, m, n - 1);
    }
  }

  lemma QueueFront(queue: seq<Doc>, done: set<Doc>, depth: map<Doc, nat>)
    requires Queued(queue, done, depth) && queue != []
    ensures forall v | v in depth && v !in done :: depth[queue[0]] <= depth[v] <= depth[queue[0]] + 1
  {
    forall v | v in depth && v !in done ensures depth[queue[0]] <= depth[v] <= depth[queue[0]] + 1 {
      var j :| 0 <= j < |queue| && queue[j] == v;
    }
  }

  lemma Enqueue(queue: seq<Doc>, done: set<Doc>, depth: map<Doc, nat>, target: Doc)
    requires Queued(queue, done, depth) && queue != [] && target !in depth && done <= depth.Keys
    ensures Queued(queue + [target], done, depth[target := depth[queue[0]] + 1])
  {
  }

  lemma Dequeue(queue: seq<Doc>, done: set<Doc>, depth: map<Doc, nat>)
    requires Queued(queue, done, depth) && queue != []
    ensures Queued(queue[1..], done + {queue[0]}, depth)
  {
    assert queue == [queue[0]] + queue[1..];
    if |queue| > 1 { QueueFront(queue, done, depth); }
  }

  lemma ExploredVisit(graph: Graph, done: set<Doc>, depth: map<Doc, nat>, target: Doc, n: nat)
    requires Explored(graph, done, depth) && target !in depth && done <= depth.Keys
    ensures Explored(graph, done, depth[target := n])
  {
  }

  /** The search state: what is visited is found, what is done is explored, the rest waits in the queue. */
  ghost predicate Search(graph: Graph, orphan: Doc, reachable: set<Doc>, queue: seq<Doc>, done: set<Doc>,
                         depth: map<Doc, nat>) {
    && done <= depth.Keys && Found(graph, orphan, reachable, depth)
    && Queued(queue, done, depth) && Explored(graph, done, depth)
  }

  lemma Visit(graph: Graph, orphan: Doc, reachable: set<Doc>, queue: seq<Doc>, done: set<Doc>, depth: map<Doc, nat>,
              target: Doc)
    requires Search(graph, orphan, reachable, queue, done, depth) && queue != []
    requires target !in depth && target !in reachable && Linked(graph, queue[0], target)
    ensures Search(graph, orphan, reachable, queue + [target], done, depth[target := depth[queue[0]] + 1])
  {
    assert Walk(graph, orphan, queue[0], depth[queue[0]]);
    assert Walk(graph, orphan, target, depth[queue[0]] + 1);
    Enqueue(queue, done, depth, target);
    ExploredVisit(graph, done, depth, target, depth[queue[0]] + 1);
  }

  lemma Retire(graph: Graph, orphan: Doc, reachable: set<Doc>, queue: seq<Doc>, done: set<Doc>, depth: map<Doc, nat>)
    requires Search(graph, orphan, reachable, queue, done, depth) && queue != []
    requires forall w | Linked(graph, queue[0], w) :: w in depth && depth[w] <= depth[queue[0]] + 1
    ensures Search(graph, orphan, reachable, queue[1..], done + {queue[0]}, depth)
  {
    Dequeue(queue, done, depth);
  }

  /** A reachable neighbour of the queue's front is at minimum distance. */
  lemma FrontIsNearest(graph: Graph, orphan: Doc, reachable: set<Doc>, queue: seq<Doc>, done: set<Doc>,
                       depth: map<Doc, nat>, r: Doc, k: nat)
    requires Search(graph, orphan, reachable, queue, done, depth) && queue != []
    requires r in reachable && Walk(graph, orphan, r, k)
    ensures depth[queue[0]] + 1 <= k
  {
    QueueFront(queue, done, depth);
    if k <= depth[queue[0]] { NearerVisited(graph, orphan, done, depth, depth[queue[0]], r, k); }
  }

  ghost predicate Nearest(graph: Graph, orphan: Doc, reachable: set<Doc>, d: Doc, n: nat) {
    && d in reachable && Walk(graph, orphan, d, n)
    && forall r, k: nat | r in reachable && Walk(graph, orphan, r, k) :: n <= k
  }

  /** `d` is a nearest one, at some distance. */
  ghost predicate IsNearest(graph: Graph, orphan: Doc, reachable: set<Doc>, d: Doc) {
    exists n: nat :: Nearest(graph, orphan, reachable, d, n)
  }

  lemma FrontLink(graph: Graph, orphan: Doc, reachable: set<Doc>, queue: seq<Doc>, done: set<Doc>,
                  depth: map<Doc, nat>, target: Doc)
    requires Search(graph, orphan, reachable, queue, done, depth) && queue != []
    requires target in reachable && Linked(graph, queue[0], target)
    ensures IsNearest(graph, orphan, reachable, target)
  {
    assert Walk(graph, orphan, queue[0], depth[queue[0]]);
    forall r, k: nat | r in reachable && Walk(graph, orphan, r, k) ensures depth[queue[0]] + 1 <= k {
      FrontIsNearest(graph, orphan, reachable, queue, done, depth, r, k);
    }
    assert Nearest(graph, orphan, reachable, target, depth[queue[0]] + 1);
  }

  /** A neighbour of the front that was already visited is at most one step deeper. */
  lemma FrontDepth(queue: seq<Doc>, done: set<Doc>, depth: map<Doc, nat>, w: Doc)
    requires Queued(queue, done, depth) && queue != [] && w in depth
    ensures depth[w] <= depth[queue[0]] + 1
  {
    QueueFront(queue, done, depth);
    assert queue[0] in queue;
  }

  predicate First(docs: set<Doc>, d: Doc) { d in docs && forall e | e in docs :: d <= e }

  lemma {:induction false} HasFirst(docs: set<Doc>)
    requires docs != {}
    ensures exists d :: First(docs, d)
  {
    var x :| x in docs;
    var rest := docs - {x};
    if forall e | e in rest :: x <= e {
      assert forall e | e in docs :: e == x || e in rest;
      assert First(docs, x);
    } else {
      HasFirst(rest);
      var y :| First(rest, y);
      assert forall e | e in docs :: e == x || e in rest;
      assert First(docs, y);
    }
  }

  /** The first document of a set in path order. */
  method FirstOf(docs: set<Doc>) returns (d: Doc)
    requires docs != {}
    ensures First(docs, d)
  {
    HasFirst(docs);
    d :| First(docs, d);
  }

  /** Once every neighbour of the front was visited, the front is done. */
  lemma RetireFront(graph: Graph, orphan: Doc, others: set<Doc>, links: set<Doc>, queue: seq<Doc>, done: set<Doc>,
                    depth: map<Doc, nat>)
    requires Search(graph, orphan, others, queue, done, depth) && queue != [] && links <= depth.Keys
    requires forall w :: w in links <==> Linked(graph, queue[0], w)
    ensures Search(graph, orphan, others, queue[1..], done + {queue[0]}, depth)
  {
    forall w | Linked(graph, queue[0], w) ensures w in depth && depth[w] <= depth[queue[0]] + 1 {
      assert w in links;
      FrontDepth(queue, done, depth, w);
    }
    Retire(graph, orphan, others, queue, done, depth);
  }

  /** Looks at every neighbour of the front in path order: stops at a reachable one, and queues the unvisited ones. */
  method Expand(graph: Graph, links: set<Doc>, orphan: Doc, reachable: set<Doc>, queue: seq<Doc>, visited: set<Doc>,
                ghost others: set<Doc>, ghost done: set<Doc>, ghost depth: map<Doc, nat>)
    returns (hit: Option<Doc>, queue': seq<Doc>, visited': set<Doc>, ghost depth': map<Doc, nat>)
    requires others == reachable - {orphan}
    requires queue != [] && visited == depth.Keys && Search(graph, orphan, others, queue, done, depth)
    requires forall w :: w in links <==> Linked(graph, queue[0], w)
    ensures hit.Some? ==> IsNearest(graph, orphan, others, hit.value)
    ensures hit.None? ==>
              && visited' == depth'.Keys && depth'.Keys <= depth.Keys + links
              && Search(graph, orphan, others, queue', done + {queue[0]}, depth')
  {
    hide Explored, Nearest;
    var rest := links;
    hit, queue', visited', depth' := None, queue, visited, depth;
    while rest != {}
      invariant queue' != [] && queue'[0] == queue[0] && visited' == depth'.Keys
      invariant depth'.Keys <= depth.Keys + links && queue[0] in depth' && rest <= links
      invariant Search(graph, orphan, others, queue', done, depth')
      invariant links - rest <= depth'.Keys
    {
      var target := FirstOf(rest);
      rest := rest - {target};
      if target !in visited' {
        if target in reachable {
          FrontLink(graph, orphan, others, queue', done, depth', target);
          return Some(target), queue', visited', depth';
        }
        Visit(graph, orphan, others, queue', done, depth', target);
        visited', queue', depth' := visited' + {target}, queue' + [target], depth'[target := depth'[queue[0]] + 1];
      }
    }
    RetireFront(graph, orphan, others, links, queue', done, depth');
    queue' := queue'[1..];
  }

  function Universe(graph: Graph, orphan: Doc): set<Doc> {
    {orphan} + set a, b | a in graph && b in graph[a] :: b
  }

  lemma NothingReachable(graph: Graph, orphan: Doc, reachable: set<Doc>, done: set<Doc>, depth: map<Doc, nat>)
    requires Search(graph, orphan, reachable, [], done, depth)
    ensures forall r, k: nat | r in reachable :: !Walk(graph, orphan, r, k)
  {
    assert done == depth.Keys;
    forall r, k: nat | r in reachable ensures !Walk(graph, orphan, r, k) {
      if Walk(graph, orphan, r, k) { ComponentVisited(graph, orphan, depth, r, k); }
    }
  }

  lemma FrontWaits(queue: seq<Doc>, done: set<Doc>, depth: map<Doc, nat>)
    requires Queued(queue, done, depth) && queue != []
    ensures queue[0] in depth && queue[0] !in done
  {
    assert queue[0] in queue;
  }

  /**
   The reachable document nearest to a start document over undirected links, or none exactly when
   no other document of its component is reachable.
   */
  method NearestReachable(orphan: Doc, graph: Graph, reachable: set<Doc>) returns (nearest: Option<Doc>)
    ensures nearest.Some? ==> IsNearest(graph, orphan, reachable - {orphan}, nearest.value)
    ensures nearest.None? <==> forall r, k: nat | r in reachable - {orphan} :: !Walk(graph, orphan, r, k)
  {
    var neighbours := Neighbours(graph);
    var queue, visited := [orphan], {orphan};
    ghost var depth: map<Doc, nat>, done: set<Doc> := map[orphan := 0], {};
    ghost var others := reachable - {orphan};
    while queue != []
      invariant visited == depth.Keys <= Universe(neighbours, orphan)
      invariant Search(graph, orphan, others, queue, done, depth)
      decreases Universe(neighbours, orphan) - done
    {
      ghost var source := queue[0];
      FrontWaits(queue, done, depth);
      nearest, queue, visited, depth :=
        Expand(graph, Targets(neighbours, queue[0]), orphan, reachable, queue, visited, others, done, depth);
      if nearest.Some? {
        ghost var n: nat :| Nearest(graph, orphan, others, nearest.value, n);
        assert nearest.value in others && Walk(graph, orphan, nearest.value, n);
        return;
      }
      done := done + {source};
    }
    NothingReachable(graph, orphan, others, done, depth);
    nearest := None;
  }
}
