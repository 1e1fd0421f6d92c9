/** The crawl of `getAllLinks` as functions: `Crawl`, `WalkLinks` and
    `Visit` state what one crawl emits and which signatures it has seen at
    the end, and the lemmas here state what it achieves. */
module Crawls {
  import opened Jira
  import opened IssueGraph

  /** What a crawl emitted, in order, and the visited set it ends with. */
  datatype Trace = Trace(steps: seq<Step>, visited: set<string>)
  // ----- what one crawl emits -------------------------------------------

  function SigSet(steps: seq<Step>): set<string> {
    if steps == [] then {} else {steps[0].edge.Signature()} + SigSet(steps[1..])
  }

  lemma {:induction false} SigSetAppend(a: seq<Step>, b: seq<Step>)
    ensures SigSet(a + b) == SigSet(a) + SigSet(b)
  {
    if a != [] {
      assert (a + b)[1..] == a[1..] + b;
      SigSetAppend(a[1..], b);
    } else {
      assert a + b == b;
    }
  }

  /** With space-free issue keys, an edge whose signature is among the
      steps' signatures was emitted with that very from-key, link type name
      and to-key: an edge the crawl skips as already visited is a duplicate
      of one it drew, never a different edge with the same signature. */
  lemma {:induction false} SeenMeansDrawn(steps: seq<Step>, e: JiraLink)
    requires e.Signature() in SigSet(steps) && NoSpace(e.from.key) && NoSpace(e.to.key)
    requires forall k :: 0 <= k < |steps| ==> NoSpace(steps[k].edge.from.key) && NoSpace(steps[k].edge.to.key)
    ensures exists k :: 0 <= k < |steps| && steps[k].edge.from.key == e.from.key
              && steps[k].edge.link.linkType.name == e.link.linkType.name && steps[k].edge.to.key == e.to.key
  {
    var d := steps[0].edge;
    if e.Signature() == d.Signature() {
      SignatureInjective(e.from.key, e.link.linkType.name, e.to.key, d.from.key, d.link.linkType.name, d.to.key);
    } else {
      SeenMeansDrawn(steps[1..], e);
      var k :| 0 <= k < |steps[1..]| && steps[1..][k].edge.from.key == e.from.key
                 && steps[1..][k].edge.link.linkType.name == e.link.linkType.name && steps[1..][k].edge.to.key == e.to.key;
      assert steps[k + 1] == steps[1..][k];
    }
  }

  lemma {:induction false} SigSetSize(steps: seq<Step>)
    ensures |SigSet(steps)| <= |steps|
  {
    if steps != [] {
      SigSetSize(steps[1..]);
    }
  }

  /** No two steps share a signature (there are as many signatures as
      steps), and none was visited before. */
  predicate Fresh(steps: seq<Step>, visited: set<string>) {
    |SigSet(steps)| == |steps| && SigSet(steps) !! visited
  }

  lemma FreshAppend(a: seq<Step>, b: seq<Step>, v: set<string>)
    requires Fresh(a, v) && Fresh(b, v + SigSet(a))
    ensures Fresh(a + b, v)
    ensures SigSet(a + b) == SigSet(a) + SigSet(b)
  {
    SigSetAppend(a, b);
    assert SigSet(a) * SigSet(b) == {};
  }

  /** `t` is what a crawl started with visited set `v` may end with: the
      visited set grew by exactly the signatures of the emitted steps, and
      those were new. */
  predicate Continues(v: set<string>, t: Trace) {
    t.visited == v + SigSet(t.steps) && Fresh(t.steps, v)
  }

  /** Running two crawls one after the other is a crawl. */
  lemma Then(v: set<string>, t1: Trace, t2: Trace)
    requires Continues(v, t1) && Continues(t1.visited, t2)
    ensures Continues(v, Trace(t1.steps + t2.steps, t2.visited))
  {
    FreshAppend(t1.steps, t2.steps, v);
  }

  /** `Fresh` spelt out: the signatures are pairwise different and none of
      them was in the visited set. */
  lemma {:induction false} FreshMeans(steps: seq<Step>, v: set<string>)
    requires Fresh(steps, v)
    ensures forall i, j :: 0 <= i < j < |steps| ==> steps[i].edge.Signature() != steps[j].edge.Signature()
    ensures forall k :: 0 <= k < |steps| ==> steps[k].edge.Signature() !in v
  {
    if steps != [] {
      var x, tail := steps[0].edge.Signature(), steps[1..];
      SigSetSize(tail);
      assert x !in SigSet(tail);
      FreshMeans(tail, v + {x});
      forall i, j | 0 <= i < j < |steps| ensures steps[i].edge.Signature() != steps[j].edge.Signature() {
        assert steps[j] == tail[j - 1];
        if 0 < i {
          assert steps[i] == tail[i - 1];
        }
      }
      forall k | 0 < k < |steps| ensures steps[k].edge.Signature() !in v {
        assert steps[k] == tail[k - 1];
      }
    }
  }

  /** Every issue the steps crawled into had all of its own edges visited. */
  ghost predicate Explored(steps: seq<Step>, visited: set<string>, server: Server) {
    steps == [] || (OwnSigs(Expand(steps[0].Into(), server)) <= visited && Explored(steps[1..], visited, server))
  }

  lemma {:induction false} ExploredAppend(a: seq<Step>, b: seq<Step>, v: set<string>, w: set<string>, server: Server)
    requires Explored(a, v, server) && Explored(b, w, server) && v <= w
    ensures Explored(a + b, w, server)
  {
    if a == [] {
      assert a + b == b;
    } else {
      assert (a + b)[1..] == a[1..] + b;
      ExploredAppend(a[1..], b, v, w, server);
    }
  }

  /** `Explored` spelt out, step by step. */
  lemma {:induction false} ExploredMeans(steps: seq<Step>, visited: set<string>, server: Server)
    requires Explored(steps, visited, server)
    ensures forall k :: 0 <= k < |steps| ==> OwnSigs(Expand(steps[k].Into(), server)) <= visited
  {
    if steps != [] {
      ExploredMeans(steps[1..], visited, server);
      forall k | 0 < k < |steps| ensures OwnSigs(Expand(steps[k].Into(), server)) <= visited {
        assert steps[k] == steps[1..][k - 1];
      }
    }
  }

  /* `Crawl`, `WalkLinks` and `Visit` take a ghost `bound` on every
     signature reachable from where they start; it carries the termination
     argument (each new edge takes one signature out of the finite room
     `bound - visited`, and no call gives room back) and never changes the
     result. What the crawl achieves is proved about them by the lemmas
     `CrawlSound`, `WalkSound` and `VisitSound` below. */

  /** A crawl from `issue`: re-fetch it if it came without links, then walk
      its links. */
  function Crawl(issue: Issue, server: Server, visited: set<string>, ghost bound: set<string>): (r: Trace)
    requires Bounded(issue, server, bound)
    ensures |bound - r.visited| <= |bound - visited|
    decreases |bound - visited|, 2, 0
  {
    ExpandBounded(issue, server, bound);
    WalkLinks(Expand(issue, server), 0, server, visited, bound)
  }

  /** The links of `cur` from index `i` on, in order; for each, its outward
      side first and then its inward side. */
  function WalkLinks(cur: Issue, i: nat, server: Server, visited: set<string>, ghost bound: set<string>): (r: Trace)
    requires i <= |cur.links| && Bounded(cur, server, bound)
    ensures |bound - r.visited| <= |bound - visited|
    decreases |bound - visited|, 1, |cur.links| - i
  {
    if i == |cur.links| then Trace([], visited)
    else
      var t1 := Visit(cur, i, Outward, server, visited, bound);
      var t2 := Visit(cur, i, Inward, server, t1.visited, bound);
      var rest := WalkLinks(cur, i + 1, server, t2.visited, bound);
      Trace(t1.steps + t2.steps + rest.steps, rest.visited)
  }

  /** One side of link `i`: an edge whose signature is new is emitted, its
      signature recorded, and the crawl continues into the far end before
      anything else happens; a seen or absent edge does nothing. */
  function Visit(cur: Issue, i: nat, dir: Direction, server: Server, visited: set<string>,
                 ghost bound: set<string>): (r: Trace)
    requires i < |cur.links| && Bounded(cur, server, bound)
    ensures |bound - r.visited| <= |bound - visited|
    decreases |bound - visited|, 0, 0
  {
    match Candidate(cur, i, dir)
    case None => Trace([], visited)
    case Some(s) =>
      if s.edge.Signature() in visited then Trace([], visited)
      else
        CandidateBounded(cur, i, dir, server, bound);
        RoomShrinksStrictly(bound, visited, s.edge.Signature());
        var sub := Crawl(s.Into(), server, visited + {s.edge.Signature()}, bound);
        Trace([s] + sub.steps, sub.visited)
  }

  /* What a crawl achieves. The visited set grows by exactly the signatures
     of the edges emitted, which were new and pairwise different
     (`Continues`); only edges of the issue graph are emitted (they lie in
     `bound`); and every issue the crawl went into had all of its own edges
     visited by the time the crawl returned (`Explored`). */
  ghost predicate Sound(v: set<string>, t: Trace, server: Server, bound: set<string>) {
    Continues(v, t) && SigSet(t.steps) <= bound && Explored(t.steps, t.visited, server)
  }

  /** Two sound crawls one after the other make a sound crawl. */
  lemma SoundThen(v: set<string>, t1: Trace, t2: Trace, server: Server, bound: set<string>)
    requires Sound(v, t1, server, bound) && Sound(t1.visited, t2, server, bound)
    ensures Sound(v, Trace(t1.steps + t2.steps, t2.visited), server, bound)
    ensures v <= t1.visited <= t2.visited
  {
    Then(v, t1, t2);
    SigSetAppend(t1.steps, t2.steps);
    ExploredAppend(t1.steps, t2.steps, t1.visited, t2.visited, server);
  }

  /** Emitting a new edge of the bound and then crawling soundly into its far
      end, which the crawl fully explored, is sound. */
  lemma SoundCons(v: set<string>, s: Step, sub: Trace, server: Server, bound: set<string>)
    requires s.edge.Signature() in bound && s.edge.Signature() !in v
    requires Sound(v + {s.edge.Signature()}, sub, server, bound)
    requires OwnSigs(Expand(s.Into(), server)) <= sub.visited
    ensures Sound(v, Trace([s] + sub.steps, sub.visited), server, bound)
  {
    Then(v, Trace([s], v + {s.edge.Signature()}), sub);
    SigSetAppend([s], sub.steps);
    assert ([s] + sub.steps)[1..] == sub.steps;
  }

  /** A crawl is sound, and it visits every edge of the (re-fetched) issue. */
  lemma CrawlSound(issue: Issue, server: Server, visited: set<string>, bound: set<string>)
    requires Bounded(issue, server, bound)
    ensures var r := Crawl(issue, server, visited, bound);
            Sound(visited, r, server, bound) && OwnSigs(Expand(issue, server)) <= r.visited
    decreases |bound - visited|, 2, 0
  {
    ExpandBounded(issue, server, bound);
    WalkSound(Expand(issue, server), 0, server, visited, bound);
  }

  /** Walking links `i..` is sound, and visits every edge on those links. */
  lemma WalkSound(cur: Issue, i: nat, server: Server, visited: set<string>, bound: set<string>)
    requires i <= |cur.links| && Bounded(cur, server, bound)
    ensures var r := WalkLinks(cur, i, server, visited, bound);
            Sound(visited, r, server, bound) && OwnFrom(cur, i) <= r.visited
    decreases |bound - visited|, 1, |cur.links| - i
  {
    if i < |cur.links| {
      var t1 := Visit(cur, i, Outward, server, visited, bound);
      VisitSound(cur, i, Outward, server, visited, bound);
      var t2 := Visit(cur, i, Inward, server, t1.visited, bound);
      VisitSound(cur, i, Inward, server, t1.visited, bound);
      var rest := WalkLinks(cur, i + 1, server, t2.visited, bound);
      WalkSound(cur, i + 1, server, t2.visited, bound);
      SoundThen(visited, t1, t2, server, bound);
      SoundThen(visited, Trace(t1.steps + t2.steps, t2.visited), rest, server, bound);
    }
  }

  /** One side of a link is handled soundly, and its edge, if it has one,
      is visited afterwards. */
  lemma VisitSound(cur: Issue, i: nat, dir: Direction, server: Server, visited: set<string>, bound: set<string>)
    requires i < |cur.links| && Bounded(cur, server, bound)
    ensures var r := Visit(cur, i, dir, server, visited, bound);
            && Sound(visited, r, server, bound)
            && (Candidate(cur, i, dir).Some? ==> Candidate(cur, i, dir).value.edge.Signature() in r.visited)
    decreases |bound - visited|, 0, 2
  {
    var c := Candidate(cur, i, dir);
    if c.Some? && c.value.edge.Signature() !in visited {
      CandidateBounded(cur, i, dir, server, bound);
      NewEdgeSound(cur, i, dir, server, visited, bound);
    } else {
      VisitSkip(cur, i, dir, server, visited, bound);
    }
  }

  /** `VisitSound` for a new edge: it is emitted, and the crawl into its far
      end is sound. */
  lemma NewEdgeSound(cur: Issue, i: nat, dir: Direction, server: Server, visited: set<string>, bound: set<string>)
    requires i < |cur.links| && Bounded(cur, server, bound)
    requires Candidate(cur, i, dir).Some? && Candidate(cur, i, dir).value.edge.Signature() !in visited
    requires Bounded(Candidate(cur, i, dir).value.Into(), server, bound)
    requires Candidate(cur, i, dir).value.edge.Signature() in bound
    ensures var r := Visit(cur, i, dir, server, visited, bound);
            Sound(visited, r, server, bound) && Candidate(cur, i, dir).value.edge.Signature() in r.visited
    decreases |bound - visited|, 0, 1
  {
    var s := Candidate(cur, i, dir).value;
    RoomShrinksStrictly(bound, visited, s.edge.Signature());
    var sub := Crawl(s.Into(), server, visited + {s.edge.Signature()}, bound);
    CrawlSound(s.Into(), server, visited + {s.edge.Signature()}, bound);
    VisitNew(cur, i, dir, server, visited, bound);
    SoundCons(visited, s, sub, server, bound);
  }

  /** A crawl from a root with a fresh, empty visited set: it ends having
      visited exactly the emitted signatures, pairwise different, one per
      emitted edge, all of them edges of the issue graph; and it has visited
      every edge of the root and of every issue it crawled into. */
  lemma RootCrawl(root: Issue, server: Server)
    ensures var r := Crawl(root, server, {}, Universe(root, server));
      && r.visited == SigSet(r.steps)
      && |r.visited| == |r.steps|
      && (forall i, j :: 0 <= i < j < |r.steps| ==> r.steps[i].edge.Signature() != r.steps[j].edge.Signature())
      && r.visited <= Universe(root, server)
      && OwnSigs(Expand(root, server)) <= r.visited
      && (forall k :: 0 <= k < |r.steps| ==> OwnSigs(Expand(r.steps[k].Into(), server)) <= r.visited)
  {
    var u := Universe(root, server);
    UniverseBounds(root, server);
    var r := Crawl(root, server, {}, u);
    CrawlSound(root, server, {}, u);
    FreshMeans(r.steps, {});
    ExploredMeans(r.steps, r.visited, server);
  }

  /** An issue without links whose re-fetch fails is a leaf. */
  lemma FailedFetchIsLeaf(issue: Issue, server: Server, visited: set<string>, bound: set<string>)
    requires |issue.links| == 0 && issue.key !in server && Bounded(issue, server, bound)
    ensures Crawl(issue, server, visited, bound) == Trace([], visited)
  {
  }

  /** One round of the link loop: link `i`, outward side then inward side. */
  ghost function Round(cur: Issue, i: nat, server: Server, v: set<string>, bound: set<string>): (r: Trace)
    requires i < |cur.links| && Bounded(cur, server, bound)
    ensures |bound - r.visited| <= |bound - v|
  {
    var t1 := Visit(cur, i, Outward, server, v, bound);
    var t2 := Visit(cur, i, Inward, server, t1.visited, bound);
    Trace(t1.steps + t2.steps, t2.visited)
  }

  /** One step of `WalkLinks`: a round on link `i`, then the rest. */
  lemma WalkStep(cur: Issue, i: nat, server: Server, v: set<string>, bound: set<string>)
    requires i < |cur.links| && Bounded(cur, server, bound)
    ensures var r := Round(cur, i, server, v, bound);
            var rest := WalkLinks(cur, i + 1, server, r.visited, bound);
            WalkLinks(cur, i, server, v, bound) == Trace(r.steps + rest.steps, rest.visited)
  {
  }

  /** `Visit` on a new edge: emit it, then crawl into its far end. */
  lemma VisitNew(cur: Issue, i: nat, dir: Direction, server: Server, v: set<string>, bound: set<string>)
    requires i < |cur.links| && Bounded(cur, server, bound)
    requires Candidate(cur, i, dir).Some? && Candidate(cur, i, dir).value.edge.Signature() !in v
    requires Bounded(Candidate(cur, i, dir).value.Into(), server, bound)
    ensures var s := Candidate(cur, i, dir).value;
            var sub := Crawl(s.Into(), server, v + {s.edge.Signature()}, bound);
            Visit(cur, i, dir, server, v, bound) == Trace([s] + sub.steps, sub.visited)
  {
  }

  /** `Visit` on an absent or already visited edge does nothing. */
  lemma VisitSkip(cur: Issue, i: nat, dir: Direction, server: Server, v: set<string>, bound: set<string>)
    requires i < |cur.links| && Bounded(cur, server, bound)
    requires Candidate(cur, i, dir).None? || Candidate(cur, i, dir).value.edge.Signature() in v
    ensures Visit(cur, i, dir, server, v, bound) == Trace([], v)
  {
  }

  lemma WalkStop(cur: Issue, server: Server, v: set<string>, bound: set<string>)
    requires Bounded(cur, server, bound)
    ensures WalkLinks(cur, |cur.links|, server, v, bound) == Trace([], v)
  {
  }
}
