/** The issue graph as the crawl sees it: the tracker as a map from key to
    issue, the edge each side of a link stands for, and the finite set of
    signatures reachable from an issue, which bounds every crawl. */
module IssueGraph {
  import opened Jira

  /** The tracker as the crawl sees it: every issue it can fetch, by key. */
  type Server = map<string, Issue>

  /** `client.Issue.Get(key)`: the issue, or nothing when the fetch fails. */
  function Fetch(server: Server, key: string): (r: Option<Issue>)
    ensures r.Some? <==> key in server
    ensures r.Some? ==> r.value == server[key]
  {
    if key in server then Some(server[key]) else None
  }

  /** The re-fetch of an issue that came without links, as the code is
      written: the fetch result replaces the issue, errors ignored, so a
      failed fetch leaves nil (None), which the link loop then dereferences. */
  function ExpandAsWritten(issue: Issue, server: Server): (r: Option<Issue>)
    ensures r.None? <==> |issue.links| == 0 && issue.key !in server
    ensures r.Some? && |issue.links| == 0 ==> r.value == server[issue.key]
    ensures |issue.links| > 0 ==> r == Some(issue)
  {
    if |issue.links| == 0 then Fetch(server, issue.key) else Some(issue)
  }

  /** A failed re-fetch leaves the crawl holding nil. */
  lemma ExpandAsWrittenNil(issue: Issue, server: Server)
    requires |issue.links| == 0 && issue.key !in server
    ensures ExpandAsWritten(issue, server) == None
  {
  }

  /** The re-fetch as intended: an issue with links is used as it is, one
      without is replaced by a fetch of its own key, and a failed fetch
      leaves the issue as a leaf. */
  function Expand(issue: Issue, server: Server): (r: Issue)
    ensures |issue.links| > 0 ==> r == issue
    ensures |issue.links| == 0 && issue.key in server ==> r == server[issue.key]
    ensures |issue.links| == 0 && issue.key !in server ==> r == issue && r.links == []
    ensures ExpandAsWritten(issue, server).Some? ==> r == ExpandAsWritten(issue, server).value
  {
    match ExpandAsWritten(issue, server)
    case Some(fetched) => fetched
    case None => issue
  }

  datatype Direction = Outward | Inward

  /** An emitted edge, and the side of its link it came from; the crawl then
      continues into the issue at the far end. */
  datatype Step = Step(edge: JiraLink, dir: Direction) {
    function Into(): Issue {
      if dir == Outward then edge.to else edge.from
    }
  }

  /** The edge that one side of link `i` of `cur` stands for: an outward
      reference gives `cur --type--> outward`, an inward one gives
      `inward --type--> cur`. */
  function Candidate(cur: Issue, i: nat, dir: Direction): (r: Option<Step>)
    requires i < |cur.links|
    ensures dir == Outward ==> (r.Some? <==> cur.links[i].outwardIssue.Some?)
    ensures dir == Inward ==> (r.Some? <==> cur.links[i].inwardIssue.Some?)
    ensures r.Some? && dir == Outward ==>
              r.value.edge == JiraLink(cur, cur.links[i], cur.links[i].outwardIssue.value)
    ensures r.Some? && dir == Inward ==>
              r.value.edge == JiraLink(cur.links[i].inwardIssue.value, cur.links[i], cur)
    ensures r.Some? ==> r.value.dir == dir
  {
    var l := cur.links[i];
    match dir
    case Outward =>
      if l.outwardIssue.Some? then Some(Step(JiraLink(cur, l, l.outwardIssue.value), Outward)) else None
    case Inward =>
      if l.inwardIssue.Some? then Some(Step(JiraLink(l.inwardIssue.value, l, cur), Inward)) else None
  }

  // ----- a finite bound on signatures, for termination --------------------

  /** The signatures of the (at most two) edges of link `i`. */
  ghost function LinkSigs(cur: Issue, i: nat): set<string>
    requires i < |cur.links|
  {
    (if Candidate(cur, i, Outward).Some? then {Candidate(cur, i, Outward).value.edge.Signature()} else {})
    + (if Candidate(cur, i, Inward).Some? then {Candidate(cur, i, Inward).value.edge.Signature()} else {})
  }

  /** The signatures of the edges on links `i..` of the issue. */
  ghost function OwnFrom(cur: Issue, i: nat): set<string>
    requires i <= |cur.links|
    decreases |cur.links| - i
  {
    if i == |cur.links| then {} else LinkSigs(cur, i) + OwnFrom(cur, i + 1)
  }

  /** The signatures of the edges on the issue's own links. */
  ghost function OwnSigs(cur: Issue): set<string> {
    OwnFrom(cur, 0)
  }

  /** The signatures of the edges on the issue and on every issue nested in
      its link references. */
  ghost function IssueSigs(issue: Issue): set<string>
    decreases issue, 1
  {
    NestedFrom(issue, 0)
  }

  ghost function NestedFrom(issue: Issue, i: nat): set<string>
    requires i <= |issue.links|
    decreases issue, 0, |issue.links| - i
  {
    if i == |issue.links| then {}
    else
      var l := issue.links[i];
      LinkSigs(issue, i)
      + (if l.outwardIssue.Some? then IssueSigs(l.outwardIssue.value) else {})
      + (if l.inwardIssue.Some? then IssueSigs(l.inwardIssue.value) else {})
      + NestedFrom(issue, i + 1)
  }

  /** `bound` holds every signature a crawl from `issue` could build: those
      reachable from the issue itself and from every issue on the server. */
  ghost predicate Bounded(issue: Issue, server: Server, bound: set<string>) {
    && IssueSigs(issue) <= bound
    && forall k :: k in server ==> IssueSigs(server[k]) <= bound
  }

  /** The least such bound. */
  ghost function Universe(issue: Issue, server: Server): set<string> {
    IssueSigs(issue) + (set k, s | k in server && s in IssueSigs(server[k]) :: s)
  }

  lemma UniverseBounds(issue: Issue, server: Server)
    ensures Bounded(issue, server, Universe(issue, server))
  {
    forall k | k in server ensures IssueSigs(server[k]) <= Universe(issue, server) {
      forall s | s in IssueSigs(server[k]) ensures s in Universe(issue, server) {
      }
    }
  }

  lemma {:induction false} NestedFromHas(issue: Issue, i: nat, j: nat)
    requires i <= j < |issue.links|
    ensures NestedFrom(issue, j) <= NestedFrom(issue, i)
    decreases j - i
  {
    if i < j {
      NestedFromHas(issue, i + 1, j);
    }
  }

  lemma ExpandBounded(issue: Issue, server: Server, bound: set<string>)
    requires Bounded(issue, server, bound)
    ensures Bounded(Expand(issue, server), server, bound)
  {
  }

  /** A candidate edge is in the bound, and the bound also covers the issue
      at its far end. */
  lemma CandidateBounded(cur: Issue, i: nat, dir: Direction, server: Server, bound: set<string>)
    requires i < |cur.links| && Candidate(cur, i, dir).Some? && Bounded(cur, server, bound)
    ensures Candidate(cur, i, dir).value.edge.Signature() in bound
    ensures Bounded(Candidate(cur, i, dir).value.Into(), server, bound)
  {
    NestedFromHas(cur, 0, i);
    assert NestedFrom(cur, i) <= bound;
  }

  /** Visiting more signatures leaves no more room in the bound. */
  lemma RoomShrinks(bound: set<string>, v: set<string>, w: set<string>)
    requires v <= w
    ensures |bound - w| <= |bound - v|
  {
    var a, b := bound - w, bound - v;
    assert a <= b;
    assert b == a + (b - a);
  }

  /** Visiting a new signature of the bound leaves strictly less room. */
  lemma RoomShrinksStrictly(bound: set<string>, v: set<string>, x: string)
    requires x in bound && x !in v
    ensures |bound - (v + {x})| < |bound - v|
  {
    var a, b := bound - (v + {x}), bound - v;
    assert b == a + {x};
  }
}
