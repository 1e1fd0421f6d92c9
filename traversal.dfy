/** The depth-first link crawl (`getAllLinks`) and its per-root setup
    (`genDepFlowchart`), done step by step on a shared `StringSet` and
    `Flowchart`, and proved to agree with the functions of `Crawls`. */
module Traversal {
  import opened Jira
  import opened GoStrings
  import opened StringSets
  import opened Flowchart
  import opened Builder
  import opened IssueGraph
  import opened Crawls

  /** The diagram edges for a sequence of steps, one per step, in order. */
  function EdgesOf(steps: seq<Step>): seq<Edge> {
    if steps == [] then [] else [EdgeFor(steps[0].edge)] + EdgesOf(steps[1..])
  }

  /** The issue keys at either end of the steps' edges. */
  ghost function Endpoints(steps: seq<Step>): set<string> {
    if steps == [] then {} else {steps[0].edge.from.key, steps[0].edge.to.key} + Endpoints(steps[1..])
  }

  lemma {:induction false} StepsAppend(a: seq<Step>, b: seq<Step>)
    ensures EdgesOf(a + b) == EdgesOf(a) + EdgesOf(b)
    ensures Endpoints(a + b) == Endpoints(a) + Endpoints(b)
  {
    if a == [] {
      assert a + b == b;
    } else {
      assert (a + b)[1..] == a[1..] + b;
      StepsAppend(a[1..], b);
    }
  }

  /** The node of the first issue at an end of the steps' edges, in drawing
      order and source before target, whose key is `k`. */
  function FirstNode(steps: seq<Step>, k: string): (r: Option<Node>)
    ensures r.Some? ==> r.value.id == k
  {
    if steps == [] then None
    else if steps[0].edge.from.key == k then Some(NodeOf(steps[0].edge.from))
    else if steps[0].edge.to.key == k then Some(NodeOf(steps[0].edge.to))
    else FirstNode(steps[1..], k)
  }

  /** Some end carries key `k` exactly when the key is an endpoint. */
  lemma {:induction false} FirstNodeFound(steps: seq<Step>, k: string)
    ensures FirstNode(steps, k).Some? <==> k in Endpoints(steps)
  {
    if steps != [] {
      FirstNodeFound(steps[1..], k);
    }
  }

  /** The first end with a key in `a + b` lies in `a` when `a` has one. */
  lemma {:induction false} FirstNodeAppend(a: seq<Step>, b: seq<Step>, k: string)
    ensures FirstNode(a + b, k) == if FirstNode(a, k).Some? then FirstNode(a, k) else FirstNode(b, k)
  {
    if a == [] {
      assert a + b == b;
    } else {
      assert (a + b)[0] == a[0];
      assert (a + b)[1..] == a[1..] + b;
      FirstNodeAppend(a[1..], b, k);
    }
  }

  /** First write wins: every node that `n` has and `n0` lacks is the node of
      the first issue at an end of the steps' edges with that key. */
  ghost predicate Drew(n0: map<string, Node>, n: map<string, Node>, steps: seq<Step>) {
    forall k {:trigger FirstNode(steps, k)} :: k in n && k !in n0 ==> FirstNode(steps, k) == Some(n[k])
  }

  /** Drawing one link's edge draws the nodes of its two ends, source first. */
  lemma DrewLink(p: Picture, q: Picture, s: Step)
    requires q == Linked(p, s.edge)
    ensures Drew(p.nodes, q.nodes, [s])
  {
    LinkedNewNodes(p, s.edge);
    assert [s][0] == s && [s][1..] == [];
  }

  /** Drawing `a` and then `b` draws as drawing `a + b` does. */
  lemma DrewAppend(n0: map<string, Node>, n1: map<string, Node>, n2: map<string, Node>, a: seq<Step>, b: seq<Step>)
    requires Drew(n0, n1, a) && Drew(n1, n2, b)
    requires Extends(n1, n2) && n1.Keys == n0.Keys + Endpoints(a)
    ensures Drew(n0, n2, a + b)
  {
    forall k | k in n2 && k !in n0
      ensures FirstNode(a + b, k) == Some(n2[k])
    {
      FirstNodeAppend(a, b, k);
      FirstNodeFound(a, k);
    }
  }

  /** Drawing the steps `a` (from edges `e0`, nodes `n0` and styles `s0` to
      `e1`, `n1`, `s1`) and then the steps `b` (on to `e2`, `n2`, `s2`) is
      drawing `a + b`. */
  lemma DrawnAppend(a: seq<Step>, b: seq<Step>,
                    e0: seq<Edge>, n0: map<string, Node>, s0: map<string, NodeStyle>,
                    e1: seq<Edge>, n1: map<string, Node>, s1: map<string, NodeStyle>,
                    e2: seq<Edge>, n2: map<string, Node>, s2: map<string, NodeStyle>)
    requires e1 == e0 + EdgesOf(a) && n1.Keys == n0.Keys + Endpoints(a)
    requires Drew(n0, n1, a) && Extends(n0, n1) && StylesKept(s0, s1)
    requires e2 == e1 + EdgesOf(b) && n2.Keys == n1.Keys + Endpoints(b)
    requires Drew(n1, n2, b) && Extends(n1, n2) && StylesKept(s1, s2)
    ensures e2 == e0 + EdgesOf(a + b)
    ensures n2.Keys == n0.Keys + Endpoints(a + b)
    ensures Drew(n0, n2, a + b)
    ensures Extends(n0, n2) && StylesKept(s0, s2)
  {
    TalliesAppend(a, b, e0, e1, e2, n0.Keys, n1.Keys, n2.Keys);
    DrewAppend(n0, n1, n2, a, b);
    KeptTransitive(Picture(n0, s0, e0), Picture(n1, s1, e1), Picture(n2, s2, e2));
  }

  /** The edges and end keys of `a` and then `b` are those of `a + b`. */
  lemma TalliesAppend(a: seq<Step>, b: seq<Step>, e0: seq<Edge>, e1: seq<Edge>, e2: seq<Edge>,
                      k0: set<string>, k1: set<string>, k2: set<string>)
    requires e1 == e0 + EdgesOf(a) && e2 == e1 + EdgesOf(b)
    requires k1 == k0 + Endpoints(a) && k2 == k1 + Endpoints(b)
    ensures e2 == e0 + EdgesOf(a + b) && k2 == k0 + Endpoints(a + b)
  {
    StepsAppend(a, b);
  }

  /** Drawing one step's edge and then crawling on is drawing the steps
      with that one in front. */
  lemma DrawnCons(s: Step, rest: seq<Step>, p0: Picture, p1: Picture, p2: Picture)
    requires p1.edges == p0.edges + [EdgeFor(s.edge)] && p1.nodes.Keys == p0.nodes.Keys + {s.edge.from.key, s.edge.to.key}
    requires Drew(p0.nodes, p1.nodes, [s]) && Extends(p0.nodes, p1.nodes) && StylesKept(p0.styles, p1.styles)
    requires p2.edges == p1.edges + EdgesOf(rest) && p2.nodes.Keys == p1.nodes.Keys + Endpoints(rest)
    requires Drew(p1.nodes, p2.nodes, rest) && Extends(p1.nodes, p2.nodes) && StylesKept(p1.styles, p2.styles)
    ensures p2.edges == p0.edges + EdgesOf([s] + rest)
    ensures p2.nodes.Keys == p0.nodes.Keys + Endpoints([s] + rest)
    ensures Drew(p0.nodes, p2.nodes, [s] + rest)
    ensures Extends(p0.nodes, p2.nodes) && StylesKept(p0.styles, p2.styles)
  {
    StepsCons(s, rest, p0.edges, p0.nodes.Keys);
    assert Endpoints([s]) == {s.edge.from.key, s.edge.to.key} by {
      assert [s][1..] == [];
    }
    DrewAppend(p0.nodes, p1.nodes, p2.nodes, [s], rest);
  }

  /** The link loop's invariant carried over one round on link `i`. */
  lemma Advance(cur: Issue, i: nat, server: Server, v: set<string>, bound: set<string>, whole: Trace, done: seq<Step>)
    requires i < |cur.links| && Bounded(cur, server, bound)
    requires whole == Trace(done + WalkLinks(cur, i, server, v, bound).steps, WalkLinks(cur, i, server, v, bound).visited)
    ensures var r := Round(cur, i, server, v, bound);
            whole == Trace((done + r.steps) + WalkLinks(cur, i + 1, server, r.visited, bound).steps,
                           WalkLinks(cur, i + 1, server, r.visited, bound).visited)
  {
    var r := Round(cur, i, server, v, bound);
    WalkStep(cur, i, server, v, bound);
    var rest := WalkLinks(cur, i + 1, server, r.visited, bound).steps;
    assert done + (r.steps + rest) == (done + r.steps) + rest;
  }

  /** Drawing one step's edge and then a sequence of steps is drawing the
      steps with that one in front. */
  lemma StepsCons(s: Step, rest: seq<Step>, e0: seq<Edge>, k0: set<string>)
    ensures (e0 + [EdgeFor(s.edge)]) + EdgesOf(rest) == e0 + EdgesOf([s] + rest)
    ensures (k0 + {s.edge.from.key, s.edge.to.key}) + Endpoints(rest) == k0 + Endpoints([s] + rest)
  {
    assert ([s] + rest)[1..] == rest;
  }
  /** `getAllLinks(issue, client, links, fc)`: the crawl done step by step on
      the shared visited set and diagram. Afterwards the visited set and the
      edges drawn are exactly those of `Crawl`; nodes exist for both ends of
      every edge drawn, and existing nodes and filled styles are untouched. */
  method GetAllLinks(issue: Issue, server: Server, links: StringSet, fc: Flowchart, ghost bound: set<string>)
    requires fc.Valid() && Bounded(issue, server, bound)
    modifies links, fc
    ensures fc.Valid()
    ensures old(links.members) <= links.members
    ensures links.members == Crawl(issue, server, old(links.members), bound).visited
    ensures fc.edges == old(fc.edges) + EdgesOf(Crawl(issue, server, old(links.members), bound).steps)
    ensures fc.nodes.Keys == old(fc.nodes).Keys + Endpoints(Crawl(issue, server, old(links.members), bound).steps)
    ensures Drew(old(fc.nodes), fc.nodes, Crawl(issue, server, old(links.members), bound).steps)
    ensures Extends(old(fc.nodes), fc.nodes)
    ensures StylesKept(old(fc.styles), fc.styles)
    decreases |bound - links.members|, 4
  {
    var cur := issue;
    if |cur.links| == 0 {
      var fetched := Fetch(server, cur.key);
      if fetched.Some? {
        cur := fetched.value;
      }
    }
    assert cur == Expand(issue, server);
    ExpandBounded(issue, server, bound);
    WalkAll(cur, server, links, fc, bound);
  }

  /** The link loop of `getAllLinks` on the (re-fetched) issue `cur`. */
  method WalkAll(cur: Issue, server: Server, links: StringSet, fc: Flowchart, ghost bound: set<string>)
    requires fc.Valid() && Bounded(cur, server, bound)
    modifies links, fc
    ensures fc.Valid()
    ensures old(links.members) <= links.members
    ensures links.members == WalkLinks(cur, 0, server, old(links.members), bound).visited
    ensures fc.edges == old(fc.edges) + EdgesOf(WalkLinks(cur, 0, server, old(links.members), bound).steps)
    ensures fc.nodes.Keys == old(fc.nodes).Keys + Endpoints(WalkLinks(cur, 0, server, old(links.members), bound).steps)
    ensures Drew(old(fc.nodes), fc.nodes, WalkLinks(cur, 0, server, old(links.members), bound).steps)
    ensures Extends(old(fc.nodes), fc.nodes)
    ensures StylesKept(old(fc.styles), fc.styles)
    decreases |bound - links.members|, 3
  {
    ghost var v0, e0, n0, s0 := links.members, fc.edges, fc.nodes, fc.styles;
    ghost var whole := WalkLinks(cur, 0, server, v0, bound);
    ghost var done: seq<Step> := [];
    assert whole.steps == done + whole.steps;
    var i := 0;
    while i < |cur.links|
      invariant 0 <= i <= |cur.links|
      invariant fc.Valid()
      invariant v0 <= links.members
      invariant whole == Trace(done + WalkLinks(cur, i, server, links.members, bound).steps,
                               WalkLinks(cur, i, server, links.members, bound).visited)
      invariant fc.edges == e0 + EdgesOf(done)
      invariant fc.nodes.Keys == n0.Keys + Endpoints(done)
      invariant Extends(n0, fc.nodes)
      invariant StylesKept(s0, fc.styles)
      invariant Drew(n0, fc.nodes, done)
    {
      ghost var r := Round(cur, i, server, links.members, bound);
      Advance(cur, i, server, links.members, bound, whole, done);
      ghost var e1, n1, s1 := fc.edges, fc.nodes, fc.styles;
      FollowLink(cur, i, server, links, fc, bound, v0);
      DrawnAppend(done, r.steps, e0, n0, s0, e1, n1, s1, fc.edges, fc.nodes, fc.styles);
      done := done + r.steps;
      i := i + 1;
    }
    WalkStop(cur, server, links.members, bound);
    assert done == whole.steps;
  }

  /** One round of the link loop: the outward `if` block, then the inward one. */
  method FollowLink(cur: Issue, i: nat, server: Server, links: StringSet, fc: Flowchart, ghost bound: set<string>,
                    ghost start: set<string>)
    requires i < |cur.links| && fc.Valid() && Bounded(cur, server, bound) && start <= links.members
    modifies links, fc
    ensures fc.Valid()
    ensures old(links.members) <= links.members
    ensures links.members == Round(cur, i, server, old(links.members), bound).visited
    ensures fc.edges == old(fc.edges) + EdgesOf(Round(cur, i, server, old(links.members), bound).steps)
    ensures fc.nodes.Keys == old(fc.nodes).Keys + Endpoints(Round(cur, i, server, old(links.members), bound).steps)
    ensures Drew(old(fc.nodes), fc.nodes, Round(cur, i, server, old(links.members), bound).steps)
    ensures Extends(old(fc.nodes), fc.nodes)
    ensures StylesKept(old(fc.styles), fc.styles)
    decreases |bound - start|, 2
  {
    ghost var v0, e0, n0, s0 := links.members, fc.edges, fc.nodes, fc.styles;
    ghost var t1 := Visit(cur, i, Outward, server, v0, bound);
    Follow(cur, i, Outward, server, links, fc, bound, start);
    ghost var t2 := Visit(cur, i, Inward, server, t1.visited, bound);
    ghost var e1, n1, s1 := fc.edges, fc.nodes, fc.styles;
    Follow(cur, i, Inward, server, links, fc, bound, start);
    assert Round(cur, i, server, v0, bound) == Trace(t1.steps + t2.steps, t2.visited);
    DrawnAppend(t1.steps, t2.steps, e0, n0, s0, e1, n1, s1, fc.edges, fc.nodes, fc.styles);
  }

  /** One of the two `if` blocks of the link loop: build the edge for one
      side of link `i`; if its signature is new, draw and follow it. */
  method Follow(cur: Issue, i: nat, dir: Direction, server: Server, links: StringSet, fc: Flowchart,
                ghost bound: set<string>, ghost start: set<string>)
    requires i < |cur.links| && fc.Valid() && Bounded(cur, server, bound) && start <= links.members
    modifies links, fc
    ensures fc.Valid()
    ensures old(links.members) <= links.members
    ensures links.members == Visit(cur, i, dir, server, old(links.members), bound).visited
    ensures fc.edges == old(fc.edges) + EdgesOf(Visit(cur, i, dir, server, old(links.members), bound).steps)
    ensures fc.nodes.Keys == old(fc.nodes).Keys + Endpoints(Visit(cur, i, dir, server, old(links.members), bound).steps)
    ensures Drew(old(fc.nodes), fc.nodes, Visit(cur, i, dir, server, old(links.members), bound).steps)
    ensures Extends(old(fc.nodes), fc.nodes)
    ensures StylesKept(old(fc.styles), fc.styles)
    decreases |bound - start|, 1
  {
    var link := cur.links[i];
    var far := if dir == Outward then link.outwardIssue else link.inwardIssue;
    if far.Some? {
      var edge := if dir == Outward then JiraLink(cur, link, far.value) else JiraLink(far.value, link, cur);
      if !links.Exists(edge.Signature()) {
        assert Candidate(cur, i, dir) == Some(Step(edge, dir));
        Record(cur, i, dir, Step(edge, dir), server, links, fc, bound, start);
      } else {
        VisitSkip(cur, i, dir, server, links.members, bound);
      }
    } else {
      VisitSkip(cur, i, dir, server, links.members, bound);
    }
  }

  /** The body of the `!links.Exists` test on the new step `s` of side
      `dir` of link `i`: draw the edge, record its signature, then crawl into
      the issue at its far end. */
  method Record(cur: Issue, i: nat, dir: Direction, s: Step, server: Server, links: StringSet, fc: Flowchart,
                ghost bound: set<string>, ghost start: set<string>)
    requires i < |cur.links| && fc.Valid() && Bounded(cur, server, bound) && start <= links.members
    requires Candidate(cur, i, dir) == Some(s) && s.edge.Signature() !in links.members
    modifies links, fc
    ensures fc.Valid()
    ensures old(links.members) <= links.members
    ensures links.members == Visit(cur, i, dir, server, old(links.members), bound).visited
    ensures fc.edges == old(fc.edges) + EdgesOf(Visit(cur, i, dir, server, old(links.members), bound).steps)
    ensures fc.nodes.Keys == old(fc.nodes).Keys + Endpoints(Visit(cur, i, dir, server, old(links.members), bound).steps)
    ensures Drew(old(fc.nodes), fc.nodes, Visit(cur, i, dir, server, old(links.members), bound).steps)
    ensures Extends(old(fc.nodes), fc.nodes)
    ensures StylesKept(old(fc.styles), fc.styles)
    decreases |bound - start|, 0
  {
    CandidateBounded(cur, i, dir, server, bound);
    VisitNew(cur, i, dir, server, links.members, bound);
    RoomShrinks(bound, start, links.members);
    RoomShrinksStrictly(bound, links.members, s.edge.Signature());
    ghost var sub := Crawl(s.Into(), server, links.members + {s.edge.Signature()}, bound);
    ghost var p0 := fc.Contents();
    AddLink(fc, s.edge);
    ghost var p1 := fc.Contents();
    DrewLink(p0, p1, s);
    links.Add(s.edge.Signature());
    GetAllLinks(s.Into(), server, links, fc, bound);
    DrawnCons(s, sub.steps, p0, p1, fc.Contents());
  }

  /** The error `genDepFlowchart` returns when the root cannot be fetched
      ("error getting issue: ..."). */
  datatype RootError = GetIssueFailed

  /** `genDepFlowchart`: fetch the root by its trimmed key; a failed fetch
      is reported and draws nothing; otherwise crawl from it with a fresh,
      empty visited set, drawing exactly the crawl's edges and their end
      nodes. */
  method GenDepFlowchart(server: Server, issueNum: string, fc: Flowchart) returns (err: Option<RootError>)
    requires fc.Valid()
    modifies fc
    ensures fc.Valid()
    ensures err.Some? <==> TrimSpace(issueNum) !in server
    ensures err.Some? ==> err.value == GetIssueFailed
                          && fc.nodes == old(fc.nodes) && fc.styles == old(fc.styles) && fc.edges == old(fc.edges)
    ensures err.None? ==>
              var root := server[TrimSpace(issueNum)];
              var steps := Crawl(root, server, {}, Universe(root, server)).steps;
              && fc.edges == old(fc.edges) + EdgesOf(steps)
              && fc.nodes.Keys == old(fc.nodes).Keys + Endpoints(steps)
              && Drew(old(fc.nodes), fc.nodes, steps)
    ensures Extends(old(fc.nodes), fc.nodes) && StylesKept(old(fc.styles), fc.styles)
  {
    var linkSet := new StringSet();
    var key := TrimSpace(issueNum);
    var root := Fetch(server, key);
    if root.None? {
      return Some(GetIssueFailed);
    }
    UniverseBounds(root.value, server);
    GetAllLinks(root.value, server, linkSet, fc, Universe(root.value, server));
    err := None;
  }
}
