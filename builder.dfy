/** The glue between the crawl and the diagram: status colours, one node per
    issue (first write wins) and one edge per emitted link. */
module Builder {
  import opened Jira
  import opened GoStrings
  import opened Flowchart

  /** The colours a status sets; a missing stroke or extra CSS is left as
      it was. */
  datatype Colours = Colours(fill: string, stroke: Option<string>, more: Option<string>)

  /** `flowchart.ColorGreen`, HTML green. */
  const ColorGreen: string := "#008000"

  /** The status switch: the nine statuses that have colours, spelt exactly
      (so "done" or "In progress" have none), each setting a fill. */
  function Palette(): (m: map<string, Colours>)
    ensures m.Keys == {"To Do", "In Progress", "In Code Review", "Ready for Local Testing",
                       "In Local Test", "Ready for Staging Test", "In Staging Test",
                       "Ready for Production", "Done"}
    ensures forall status :: status in m ==> m[status].fill != ""
  {
    map[
      "To Do" := Colours("#D3D3D3", Some("#808080"), None),
      "In Progress" := Colours("#0052CC", None, Some("color:#fff")),
      "In Code Review" := Colours("#998DD9", None, None),
      "Ready for Local Testing" := Colours("#00C7E6", None, None),
      "In Local Test" := Colours("#008DA6", None, None),
      "Ready for Staging Test" := Colours("#FFE380", None, None),
      "In Staging Test" := Colours("#FFAB00", None, None),
      "Ready for Production" := Colours("#108010", None, Some("color:#fff")),
      "Done" := Colours("#008000", Some(ColorGreen), Some("color:#0f0"))
    ]
  }

  /** The status switch applied to a style: a known status sets its fill,
      and its stroke and extra CSS where it has them; any other status
      leaves the style as it is. */
  function Recolour(style: NodeStyle, status: string): (r: NodeStyle)
    ensures r.id == style.id
    ensures status in Palette() ==>
              && r.fill == Palette()[status].fill && r.fill != ""
              && r.stroke == (if Palette()[status].stroke.Some? then Palette()[status].stroke.value else style.stroke)
              && r.more == (if Palette()[status].more.Some? then Palette()[status].more.value else style.more)
    ensures status !in Palette() ==> r == style
    ensures r.fill != "" <==> (status in Palette() || style.fill != "")
  {
    if status in Palette() then
      var c := Palette()[status];
      style.(fill := c.fill,
             stroke := if c.stroke.Some? then c.stroke.value else style.stroke,
             more := if c.more.Some? then c.more.value else style.more)
    else style
  }

  /** The style `GetStatusStyle` settles on for a status, given the styles
      so far: the style named after the status without its spaces, kept as it
      is when it already has a fill, recoloured otherwise. */
  function StatusStyle(styles: map<string, NodeStyle>, status: string): (r: NodeStyle)
    ensures RemoveSpaces(status) in styles && styles[RemoveSpaces(status)].fill != "" ==>
              r == styles[RemoveSpaces(status)]
    ensures r.fill != "" <==>
              (status in Palette() || (RemoveSpaces(status) in styles && styles[RemoveSpaces(status)].fill != ""))
  {
    var id := RemoveSpaces(status);
    if id in styles && styles[id].fill != "" then styles[id]
    else Recolour(if id in styles then styles[id] else NodeStyle(id, "", "", ""), status)
  }

  /** Recolouring twice with the same status is recolouring once. */
  lemma RecolourIdempotent(style: NodeStyle, status: string)
    ensures Recolour(Recolour(style, status), status) == Recolour(style, status)
  {
  }

  /** `GetStatusStyle`: the shared style named after the status without its
      spaces; a style that already has a fill is returned untouched, any
      other is recoloured from the status switch. Nothing but that one style
      changes. */
  method GetStatusStyle(fc: Flowchart, status: string) returns (style: NodeStyle)
    requires fc.Valid()
    modifies fc
    ensures fc.Valid()
    ensures style == StatusStyle(old(fc.styles), status)
    ensures style.id == RemoveSpaces(status) && fc.styles == old(fc.styles)[style.id := style]
    ensures style.id in old(fc.styles) && old(fc.styles)[style.id].fill != "" ==>
              style == old(fc.styles)[style.id]
    ensures style.id in old(fc.styles) && old(fc.styles)[style.id].fill == "" ==>
              style == Recolour(old(fc.styles)[style.id], status)
    ensures style.id !in old(fc.styles) ==> style == Recolour(NodeStyle(style.id, "", "", ""), status)
    ensures StylesKept(old(fc.styles), fc.styles)
    ensures fc.nodes == old(fc.nodes) && fc.edges == old(fc.edges)
  {
    style := fc.StyleNamed(RemoveSpaces(status));
    if style.fill != "" {
      return;
    }
    style := Recolour(style, status);
    fc.SetStyle(style);
  }

  const BrowseUrl: string := "https://jumpcloud.atlassian.net/browse/"

  /** The node drawn for an issue: under its key, in the style named after its
      status without spaces, linked to the issue's page, labelled with key and
      status and with the summary escaped so that it has no markup left. */
  function NodeOf(issue: Issue): (n: Node)
    ensures n.id == issue.key && n.style == RemoveSpaces(issue.status) && ' ' !in n.style
    ensures n.link == BrowseUrl + issue.key && n.linkText == "Jira: " + issue.key
    ensures |n.lines| == 2 && n.lines[0] == issue.key + " - " + issue.status
    ensures forall k :: 0 <= k < |n.lines[1]| ==> n.lines[1][k] !in "<>'\""
  {
    Node(issue.key, RemoveSpaces(issue.status), BrowseUrl + issue.key, "Jira: " + issue.key,
         [issue.key + " - " + issue.status, EscapeLabel(issue.summary)])
  }

  /** What `AddJiraNode(fc, issue)` makes of the diagram `p`. When the key has
      a node, nothing changes (first write wins). Otherwise the key gets
      `NodeOf(issue)`, its status style is settled as `GetStatusStyle` does,
      and nothing else changes. */
  function AddIssue(p: Picture, issue: Issue): (q: Picture)
    ensures q.edges == p.edges
    ensures q.nodes.Keys == p.nodes.Keys + {issue.key} && Extends(p.nodes, q.nodes)
    ensures issue.key in p.nodes ==> q == p
    ensures issue.key !in p.nodes ==>
              && q.nodes == p.nodes[issue.key := NodeOf(issue)]
              && q.styles == p.styles[RemoveSpaces(issue.status) := StatusStyle(p.styles, issue.status)]
    ensures StylesKept(p.styles, q.styles)
  {
    if issue.key in p.nodes then p
    else Picture(p.nodes[issue.key := NodeOf(issue)],
                 p.styles[RemoveSpaces(issue.status) := StatusStyle(p.styles, issue.status)],
                 p.edges)
  }

  /** `AddJiraNode`: the node of the issue's key, and the diagram `AddIssue`
      describes. */
  method AddJiraNode(fc: Flowchart, issue: Issue) returns (node: Node)
    requires fc.Valid()
    modifies fc
    ensures fc.Valid()
    ensures issue.key in fc.nodes && fc.nodes[issue.key] == node
    ensures fc.Contents() == AddIssue(old(fc.Contents()), issue)
  {
    var found := fc.GetNode(issue.key);
    if found.Some? {
      node := found.value;
      return;
    }
    var style := GetStatusStyle(fc, issue.status);
    node := Node(issue.key, style.id, BrowseUrl + issue.key, "Jira: " + issue.key,
                 [issue.key + " - " + issue.status, EscapeLabel(issue.summary)]);
    fc.AddNode(node);
  }

  /** The edge drawn for a link: from its source to its target node, with
      the type's outward phrase as text, whichever side of the link the edge
      came from, and drawn as a plain line exactly for "relates" links. */
  function EdgeFor(link: JiraLink): (e: Edge)
    ensures e.from == link.from.key && e.to == link.to.key
    ensures e.text == [link.link.linkType.outward]
    ensures e.shape == Line <==> EqualFold(link.link.linkType.name, "relates")
  {
    Edge(link.from.key, link.to.key, [link.link.linkType.outward],
         if EqualFold(link.link.linkType.name, "relates") then Line else Arrow)
  }

  /** Keeping nodes and filled styles composes. */
  lemma KeptTransitive(p: Picture, p1: Picture, p2: Picture)
    requires Extends(p.nodes, p1.nodes) && StylesKept(p.styles, p1.styles)
    requires Extends(p1.nodes, p2.nodes) && StylesKept(p1.styles, p2.styles)
    ensures Extends(p.nodes, p2.nodes) && StylesKept(p.styles, p2.styles)
  {
  }

  /** What `AddLink(fc, link)` makes of the diagram `p`: both end nodes exist
      afterwards, nodes already there and filled styles are kept, and exactly
      one edge is appended. */
  function Linked(p: Picture, link: JiraLink): (q: Picture)
    ensures q.edges == p.edges + [EdgeFor(link)]
    ensures q.nodes.Keys == p.nodes.Keys + {link.from.key, link.to.key}
    ensures Extends(p.nodes, q.nodes) && StylesKept(p.styles, q.styles)
  {
    var p1 := AddIssue(p, link.from);
    var p2 := AddIssue(p1, link.to);
    KeptTransitive(p, p1, p2);
    Picture(p2.nodes, p2.styles, p2.edges + [EdgeFor(link)])
  }

  /** An end of the link that had no node gets its issue's node, the source
      end first: when both ends share a key, the source's issue wins. */
  lemma LinkedNewNodes(p: Picture, link: JiraLink)
    ensures link.from.key !in p.nodes ==> Linked(p, link).nodes[link.from.key] == NodeOf(link.from)
    ensures link.to.key !in p.nodes && link.to.key != link.from.key ==>
              Linked(p, link).nodes[link.to.key] == NodeOf(link.to)
  {
  }

  /** `AddLink`: the diagram becomes what `Linked` describes. */
  method AddLink(fc: Flowchart, link: JiraLink)
    requires fc.Valid()
    modifies fc
    ensures fc.Valid()
    ensures fc.Contents() == Linked(old(fc.Contents()), link)
    ensures fc.edges == old(fc.edges) + [EdgeFor(link)]
    ensures fc.nodes.Keys == old(fc.nodes).Keys + {link.from.key, link.to.key}
    ensures Extends(old(fc.nodes), fc.nodes) && StylesKept(old(fc.styles), fc.styles)
  {
    var n1 := AddJiraNode(fc, link.from);
    var n2 := AddJiraNode(fc, link.to);
    fc.AddEdge(EdgeFor(link));
  }
}
