/** The note graph: neighbours from link rows, depth-bounded search around a note, and paging. */
module NoteGraph {
  import opened Base
  import opened Backlinks

  /** A link row of the index with the note it is in. */
  datatype Link = Link(source: Path, row: LinkRow) {
    function Target(): Option<Path> {
      if row.ref.kind.Web? then None else row.resolution.resolved
    }
  }

  datatype Direction = Outgoing | Incoming | Both

  /** The row links two different notes. */
  predicate Joins(link: Link, notes: set<Path>, source: Path, target: Path) {
    && link.source == source && !link.row.ref.kind.Web? && link.row.resolution.resolved == Some(target)
    && source != target && source in notes && target in notes
  }

  ghost predicate Linked(links: seq<Link>, notes: set<Path>, source: Path, target: Path) {
    exists i :: 0 <= i < |links| && Joins(links[i], notes, source, target)
  }

  type Neighbours = map<Path, set<Path>>

  function Of(m: Neighbours, p: Path): set<Path> {
    if p in m then m[p] else {}
  }

  /** Both maps say exactly which notes are linked. */
  ghost predicate Mirrors(forward: Neighbours, backward: Neighbours, links: seq<Link>, notes: set<Path>) {
    forall s, t :: MirrorsAt(forward, backward, links, notes, s, t)
  }

  ghost predicate MirrorsAt(
    forward: Neighbours, backward: Neighbours, links: seq<Link>, notes: set<Path>, s: Path, t: Path)
  {
    (t in Of(forward, s) <==> Linked(links, notes, s, t)) && (s in Of(backward, t) <==> Linked(links, notes, s, t))
  }

  lemma LinkedMore(links: seq<Link>, i: nat, notes: set<Path>, s: Path, t: Path)
    requires i < |links|
    ensures Linked(links[..i + 1], notes, s, t) <==> Linked(links[..i], notes, s, t) || Joins(links[i], notes, s, t)
  {
    var more := links[..i + 1];
    assert more[i] == links[i];
    if Linked(links[..i], notes, s, t) {
      var k :| 0 <= k < i && Joins(links[..i][k], notes, s, t);
      assert more[k] == links[..i][k];
    }
    if k :| 0 <= k < |more| && Joins(more[k], notes, s, t) {
      assert k < i ==> links[..i][k] == more[k];
    }
  }

  function WithLink(m: Neighbours, from: Path, to: Path): Neighbours {
    m[from := Of(m, from) + {to}]
  }

  lemma MirrorsJoin(
    forward: Neighbours, backward: Neighbours, links: seq<Link>, i: nat, notes: set<Path>, source: Path, target: Path)
    requires i < |links| && Mirrors(forward, backward, links[..i], notes) && Joins(links[i], notes, source, target)
    ensures Mirrors(WithLink(forward, source, target), WithLink(backward, target, source), links[..i + 1], notes)
  {
    var forward', backward' := WithLink(forward, source, target), WithLink(backward, target, source);
    var seen := links[..i + 1];
    forall s, t
      ensures MirrorsAt(forward', backward', seen, notes, s, t)
    {
      assert MirrorsAt(forward, backward, links[..i], notes, s, t);
      LinkedMore(links, i, notes, s, t);
    }
  }

  lemma MirrorsSkip(forward: Neighbours, backward: Neighbours, links: seq<Link>, i: nat, notes: set<Path>)
    requires i < |links| && Mirrors(forward, backward, links[..i], notes)
    requires forall s, t :: !Joins(links[i], notes, s, t)
    ensures Mirrors(forward, backward, links[..i + 1], notes)
  {
    var seen := links[..i + 1];
    forall s, t
      ensures MirrorsAt(forward, backward, seen, notes, s, t)
    {
      assert MirrorsAt(forward, backward, links[..i], notes, s, t);
      LinkedMore(links, i, notes, s, t);
    }
  }

  method NoteAdjacency(links: seq<Link>, notes: set<Path>) returns (forward: Neighbours, backward: Neighbours)
    ensures Mirrors(forward, backward, links, notes)
  {
    forward, backward := map[], map[];
    for i := 0 to |links|
      invariant Mirrors(forward, backward, links[..i], notes)
    {
      var source, target := links[i].source, links[i].Target();
      if target.None? || source == target.value || source !in notes || target.value !in notes {
        MirrorsSkip(forward, backward, links, i, notes);
      } else {
        MirrorsJoin(forward, backward, links, i, notes, source, target.value);
        forward := WithLink(forward, source, target.value);
        backward := WithLink(backward, target.value, source);
      }
    }
    assert links[..|links|] == links;
  }

  // ----- reaching -----

  datatype Graph = Graph(links: seq<Link>, notes: set<Path>)

  ghost predicate Adjacent(g: Graph, direction: Direction, a: Path, b: Path) {
    || (!direction.Incoming? && Linked(g.links, g.notes, a, b))
    || (!direction.Outgoing? && Linked(g.links, g.notes, b, a))
  }

  function Flipped(direction: Direction): Direction {
    match direction
    case Outgoing => Incoming
    case Incoming => Outgoing
    case Both => Both
  }

  /** Each note on the walk is adjacent to the next. */
  ghost predicate IsWalk(g: Graph, direction: Direction, walk: seq<Path>) {
    walk != [] && forall i :: 0 < i < |walk| ==> Adjacent(g, direction, walk[i - 1], walk[i])
  }

  /** A walk of at most `hops` steps leads from a to b. */
  ghost predicate Reaches(g: Graph, direction: Direction, a: Path, b: Path, hops: nat) {
    exists walk :: IsWalk(g, direction, walk) && walk[0] == a && walk[|walk| - 1] == b && |walk| <= hops + 1
  }

  lemma ReachesItself(g: Graph, direction: Direction, a: Path, hops: nat)
    ensures Reaches(g, direction, a, a, hops)
  {
    assert IsWalk(g, direction, [a]) && [a][0] == a;
  }

  lemma ReachesFurther(g: Graph, direction: Direction, a: Path, b: Path, hops: nat, more: nat)
    requires Reaches(g, direction, a, b, hops) && hops <= more
    ensures Reaches(g, direction, a, b, more)
  {
    var walk :| IsWalk(g, direction, walk) && walk[0] == a && walk[|walk| - 1] == b && |walk| <= hops + 1;
    assert |walk| <= more + 1;
  }

  lemma LastHop(g: Graph, direction: Direction, a: Path, b: Path, hops: nat) returns (m: Path)
    requires Reaches(g, direction, a, b, hops + 1) && !Reaches(g, direction, a, b, hops)
    ensures Reaches(g, direction, a, m, hops) && Adjacent(g, direction, m, b)
  {
    var walk :| IsWalk(g, direction, walk) && walk[0] == a && walk[|walk| - 1] == b && |walk| <= hops + 2;
    assert |walk| > hops + 1;
    m := walk[|walk| - 2];
    var front := walk[..|walk| - 1];
    assert IsWalk(g, direction, front) && front[0] == a && front[|front| - 1] == m;
    assert Adjacent(g, direction, walk[|walk| - 2], walk[|walk| - 1]);
  }

  lemma AddHop(g: Graph, direction: Direction, a: Path, m: Path, b: Path, hops: nat)
    requires Reaches(g, direction, a, m, hops) && Adjacent(g, direction, m, b)
    ensures Reaches(g, direction, a, b, hops + 1)
  {
    var walk :| IsWalk(g, direction, walk) && walk[0] == a && walk[|walk| - 1] == m && |walk| <= hops + 1;
    var more := walk + [b];
    assert IsWalk(g, direction, more) && more[0] == a && more[|more| - 1] == b && |more| <= hops + 2;
  }

  /** One more hop: either fewer suffice, or the last one leads from a note within reach. */
  lemma ReachesNext(g: Graph, direction: Direction, a: Path, b: Path, hops: nat)
    ensures Reaches(g, direction, a, b, hops + 1) <==>
      || Reaches(g, direction, a, b, hops)
      || exists m :: Reaches(g, direction, a, m, hops) && Adjacent(g, direction, m, b)
  {
    hide Reaches, Adjacent;
    if Reaches(g, direction, a, b, hops) {
      ReachesFurther(g, direction, a, b, hops, hops + 1);
    } else if Reaches(g, direction, a, b, hops + 1) {
      var m := LastHop(g, direction, a, b, hops);
    } else if m :| Reaches(g, direction, a, m, hops) && Adjacent(g, direction, m, b) {
      AddHop(g, direction, a, m, b, hops);
    }
  }

  /** Where one more hop leads nowhere new, no number of hops does. */
  lemma {:induction false} NothingNew(g: Graph, direction: Direction, a: Path, hops: nat, more: nat)
    requires hops <= more
    requires forall b :: Reaches(g, direction, a, b, hops + 1) ==> Reaches(g, direction, a, b, hops)
    ensures forall b :: Reaches(g, direction, a, b, more) <==> Reaches(g, direction, a, b, hops)
    decreases more - hops
  {
    if hops < more {
      NothingNew(g, direction, a, hops, more - 1);
      forall b
        ensures Reaches(g, direction, a, b, more) <==> Reaches(g, direction, a, b, hops)
      {
        ReachesNext(g, direction, a, b, more - 1);
        ReachesNext(g, direction, a, b, hops);
      }
    }
  }

  function Reversed(walk: seq<Path>): (back: seq<Path>)
    ensures |back| == |walk| && forall i :: 0 <= i < |walk| ==> back[i] == walk[|walk| - 1 - i]
  {
    seq(|walk|, i requires 0 <= i < |walk| => walk[|walk| - 1 - i])
  }

  lemma ReversedWalk(g: Graph, direction: Direction, walk: seq<Path>)
    requires IsWalk(g, direction, walk)
    ensures IsWalk(g, Flipped(direction), Reversed(walk))
  {
    var back := Reversed(walk);
    forall i | 0 < i < |back|
      ensures Adjacent(g, Flipped(direction), back[i - 1], back[i])
    {
      var k := |walk| - i;
      assert Adjacent(g, direction, walk[k - 1], walk[k]);
      assert back[i - 1] == walk[k] && back[i] == walk[k - 1];
    }
  }

  lemma ReachesBack(g: Graph, direction: Direction, a: Path, b: Path, hops: nat)
    requires Reaches(g, direction, a, b, hops)
    ensures Reaches(g, Flipped(direction), b, a, hops)
  {
    var walk :| IsWalk(g, direction, walk) && walk[0] == a && walk[|walk| - 1] == b && |walk| <= hops + 1;
    ReversedWalk(g, direction, walk);
    assert Reversed(walk)[0] == b && Reversed(walk)[|walk| - 1] == a;
  }

  /** What is within reach outgoing from a has a within reach incoming. */
  lemma Duality(g: Graph, a: Path, b: Path, hops: nat)
    ensures Reaches(g, Outgoing, a, b, hops) <==> Reaches(g, Incoming, b, a, hops)
    ensures Reaches(g, Both, a, b, hops) <==> Reaches(g, Both, b, a, hops)
  {
    if Reaches(g, Outgoing, a, b, hops) {
      ReachesBack(g, Outgoing, a, b, hops);
    }
    if Reaches(g, Incoming, b, a, hops) {
      ReachesBack(g, Incoming, b, a, hops);
    }
    if Reaches(g, Both, a, b, hops) {
      ReachesBack(g, Both, a, b, hops);
    }
    if Reaches(g, Both, b, a, hops) {
      ReachesBack(g, Both, b, a, hops);
    }
  }

  // ----- the search -----

  predicate Leads(forward: Neighbours, backward: Neighbours, direction: Direction, a: Path, b: Path) {
    (!direction.Incoming? && b in Of(forward, a)) || (!direction.Outgoing? && b in Of(backward, a))
  }

  ghost predicate LedFrom(forward: Neighbours, backward: Neighbours, direction: Direction, from: set<Path>, b: Path) {
    exists m :: m in from && Leads(forward, backward, direction, m, b)
  }

  /** Neighbours of a set of notes in a direction. */
  method Expand(forward: Neighbours, backward: Neighbours, direction: Direction, frontier: set<Path>)
    returns (neighbours: set<Path>)
    ensures forall b :: b in neighbours <==> LedFrom(forward, backward, direction, frontier, b)
  {
    neighbours := {};
    var rest := frontier;
    while rest != {}
      invariant rest <= frontier
      invariant forall b :: b in neighbours <==> LedFrom(forward, backward, direction, frontier - rest, b)
      decreases |rest|
    {
      var node :| node in rest;
      ghost var done := frontier - rest;
      rest := rest - {node};
      if !direction.Incoming? {
        neighbours := neighbours + Of(forward, node);
      }
      if !direction.Outgoing? {
        neighbours := neighbours + Of(backward, node);
      }
      assert frontier - rest == done + {node};
      forall b
        ensures LedFrom(forward, backward, direction, done + {node}, b) <==>
          LedFrom(forward, backward, direction, done, b) || Leads(forward, backward, direction, node, b)
      {
        LedMore(forward, backward, direction, done, node, b);
      }
    }
    assert frontier - {} == frontier;
  }

  lemma LedMore(forward: Neighbours, backward: Neighbours, direction: Direction, done: set<Path>, node: Path, b: Path)
    ensures LedFrom(forward, backward, direction, done + {node}, b) <==>
      LedFrom(forward, backward, direction, done, b) || Leads(forward, backward, direction, node, b)
  {
    if Leads(forward, backward, direction, node, b) {
      assert node in done + {node};
    }
    if m :| m in done && Leads(forward, backward, direction, m, b) {
      assert m in done + {node};
    }
  }

  ghost predicate NextTo(g: Graph, direction: Direction, from: set<Path>, b: Path) {
    exists m :: m in from && Adjacent(g, direction, m, b)
  }

  lemma LeadsToAdjacent(
    forward: Neighbours, backward: Neighbours, g: Graph, direction: Direction, from: set<Path>, b: Path)
    requires Mirrors(forward, backward, g.links, g.notes)
    ensures LedFrom(forward, backward, direction, from, b) <==> NextTo(g, direction, from, b)
  {
    forall m
      ensures Leads(forward, backward, direction, m, b) <==> Adjacent(g, direction, m, b)
    {
      assert MirrorsAt(forward, backward, g.links, g.notes, m, b)
        && MirrorsAt(forward, backward, g.links, g.notes, b, m);
    }
  }

  /** After so many rounds: what is visited is within reach, and the frontier is what only this round reached. */
  ghost predicate Searched(
    g: Graph, direction: Direction, root: Path, rounds: nat, visited: set<Path>, frontier: set<Path>)
  {
    && (forall b :: b in visited <==> Reaches(g, direction, root, b, rounds))
    && frontier <= visited
    && forall b :: b in visited - frontier ==> rounds > 0 && Reaches(g, direction, root, b, rounds - 1)
  }

  lemma SearchNext(
    g: Graph, direction: Direction, root: Path, rounds: nat, visited: set<Path>, frontier: set<Path>,
    neighbours: set<Path>)
    requires Searched(g, direction, root, rounds, visited, frontier)
    requires forall b :: b in neighbours <==> NextTo(g, direction, frontier, b)
    ensures Searched(g, direction, root, rounds + 1, visited + (neighbours - visited), neighbours - visited)
  {
    hide Reaches, Adjacent;
    assert visited + (neighbours - visited) == visited + neighbours;
    forall b
      ensures b in visited + neighbours <==> Reaches(g, direction, root, b, rounds + 1)
    {
      ReachesNext(g, direction, root, b, rounds);
      if m :| Reaches(g, direction, root, m, rounds) && Adjacent(g, direction, m, b) {
        if m !in frontier {
          assert m in visited - frontier;
          ReachesNext(g, direction, root, b, rounds - 1);
        }
      }
    }
  }

  /** The notes within `depth` hops of the root. */
  method LocalNotes(g: Graph, root: Path, depth: nat, direction: Direction)
    returns (visited: set<Path>)
    ensures forall b :: b in visited <==> Reaches(g, direction, root, b, depth)
  {
    hide Searched, Mirrors, Reaches;
    var forward, backward := NoteAdjacency(g.links, g.notes);
    visited := {root};
    var frontier := {root};
    var round := 0;
    RootOnly(g, direction, root);
    while round < depth && frontier != {}
      invariant round <= depth && Searched(g, direction, root, round, visited, frontier)
    {
      var neighbours := Expand(forward, backward, direction, frontier);
      forall b
        ensures b in neighbours <==> NextTo(g, direction, frontier, b)
      {
        LeadsToAdjacent(forward, backward, g, direction, frontier, b);
      }
      SearchNext(g, direction, root, round, visited, frontier, neighbours);
      neighbours := neighbours - visited;
      visited := visited + neighbours;
      frontier := neighbours;
      round := round + 1;
    }
    if frontier == {} {
      Exhausted(g, direction, root, round, visited, depth);
    } else {
      SearchedIsReached(g, direction, root, round, visited, frontier);
    }
  }

  lemma SearchedIsReached(
    g: Graph, direction: Direction, root: Path, rounds: nat, visited: set<Path>, frontier: set<Path>)
    requires Searched(g, direction, root, rounds, visited, frontier)
    ensures forall b :: b in visited <==> Reaches(g, direction, root, b, rounds)
  {
  }

  lemma RootOnly(g: Graph, direction: Direction, root: Path)
    ensures Searched(g, direction, root, 0, {root}, {root})
  {
    ReachesItself(g, direction, root, 0);
    forall b | Reaches(g, direction, root, b, 0)
      ensures b == root
    {
      var walk :| IsWalk(g, direction, walk) && walk[0] == root && walk[|walk| - 1] == b && |walk| <= 1;
    }
  }

  lemma Exhausted(
    g: Graph, direction: Direction, root: Path, rounds: nat, visited: set<Path>, depth: nat)
    requires Searched(g, direction, root, rounds, visited, {}) && rounds <= depth
    ensures forall b :: b in visited <==> Reaches(g, direction, root, b, depth)
  {
    ReachesItself(g, direction, root, rounds);
    assert root in visited - {};
    forall b | Reaches(g, direction, root, b, rounds)
      ensures Reaches(g, direction, root, b, rounds - 1)
    {
      assert b in visited - {};
    }
    NothingNew(g, direction, root, rounds - 1, depth);
    NothingNew(g, direction, root, rounds - 1, rounds);
  }

  // ----- paging -----

  type NodeId = string

  /** An empty target stands for a link that leads nowhere. */
  datatype Edge = Edge(source: NodeId, target: NodeId)

  datatype Page = Page(nodes: seq<NodeId>, edges: seq<Edge>, next: Option<nat>, truncated: bool)

  predicate OnPage(edge: Edge, nodes: seq<NodeId>) {
    edge.source in nodes && (edge.target == "" || edge.target in nodes)
  }

  function EdgesOnPage(edges: seq<Edge>, nodes: seq<NodeId>): seq<Edge> {
    if edges == [] then []
    else
      EdgesOnPage(edges[..|edges| - 1], nodes) + if OnPage(edges[|edges| - 1], nodes) then [edges[|edges| - 1]] else []
  }

  lemma {:induction false} EdgesOnPageExactly(edges: seq<Edge>, nodes: seq<NodeId>)
    ensures forall e :: e in EdgesOnPage(edges, nodes) <==>
      e in edges && e.source in nodes && (e.target in nodes || e.target == "")
  {
    if edges != [] {
      EdgesOnPageExactly(edges[..|edges| - 1], nodes);
      assert edges == edges[..|edges| - 1] + [edges[|edges| - 1]];
    }
  }

  function Min(a: nat, b: nat): nat {
    if a < b then a else b
  }

  /** One page: its nodes, the edges that stay on it, and where the next page starts. */
  method PageResponse(nodes: seq<NodeId>, edges: seq<Edge>, limit: nat, offset: nat, maxEdges: nat) returns (page: Page)
    ensures page.nodes == nodes[Min(offset, |nodes|)..Min(offset + limit, |nodes|)]
    ensures page.next == if offset + limit < |nodes| then Some(offset + limit) else None
    ensures forall e :: e in page.edges ==>
      e in edges && e.source in page.nodes && (e.target in page.nodes || e.target == "")
    ensures |page.edges| < maxEdges ==>
      forall e :: e in edges && e.source in page.nodes && (e.target in page.nodes || e.target == "") ==> e in page.edges
    ensures page.edges <= EdgesOnPage(edges, page.nodes)
      && |page.edges| == Min(|EdgesOnPage(edges, page.nodes)|, maxEdges)
    ensures !page.truncated <==> page.next.None? && page.edges == EdgesOnPage(edges, page.nodes)
  {
    var pageNodes := nodes[Min(offset, |nodes|)..Min(offset + limit, |nodes|)];
    var next := if offset + limit < |nodes| then Some(offset + limit) else None;
    var pageEdges := EdgesOnPage(edges, pageNodes);
    EdgesOnPageExactly(edges, pageNodes);
    var edgeTruncated := |pageEdges| > maxEdges;
    var emitted := if edgeTruncated then pageEdges[..maxEdges] else pageEdges;
    page := Page(pageNodes, emitted, next, next.Some? || edgeTruncated);
  }

  function NodesOf(pages: seq<Page>): seq<NodeId> {
    if pages == [] then [] else NodesOf(pages[..|pages| - 1]) + pages[|pages| - 1].nodes
  }

  /** Following `next` visits every node once, in order, and no page has an edge that leaves it. */
  method WalkPages(nodes: seq<NodeId>, edges: seq<Edge>, limit: nat, maxEdges: nat)
    returns (visited: seq<NodeId>, pages: seq<Page>)
    requires limit > 0
    ensures visited == nodes && NodesOf(pages) == nodes
    ensures forall i :: 0 <= i < |pages| ==> forall e :: e in pages[i].edges ==>
      e.source in pages[i].nodes && (e.target in pages[i].nodes || e.target == "")
    ensures |edges| <= maxEdges && |nodes| <= limit ==> |pages| == 1 && !pages[0].truncated
  {
    visited, pages := [], [];
    var offset := Some(0);
    while offset.Some?
      invariant offset.Some? ==> offset.value <= |nodes| && visited == nodes[..offset.value]
      invariant offset.None? ==> visited == nodes
      invariant NodesOf(pages) == visited
      invariant forall i :: 0 <= i < |pages| ==> forall e :: e in pages[i].edges ==>
        e.source in pages[i].nodes && (e.target in pages[i].nodes || e.target == "")
      invariant |nodes| <= limit ==>
        if offset.Some? then pages == [] && offset.value == 0
        else |pages| == 1 && (|edges| <= maxEdges ==> !pages[0].truncated)
      decreases if offset.Some? then |nodes| - offset.value + 1 else 0
    {
      var page := PageResponse(nodes, edges, limit, offset.value, maxEdges);
      EdgeCount(edges, page.nodes);
      visited := visited + page.nodes;
      assert (pages + [page])[..|pages|] == pages;
      pages := pages + [page];
      offset := page.next;
    }
  }

  lemma {:induction false} EdgeCount(edges: seq<Edge>, nodes: seq<NodeId>)
    ensures |EdgesOnPage(edges, nodes)| <= |edges|
  {
    if edges != [] {
      EdgeCount(edges[..|edges| - 1], nodes);
    }
  }
}
