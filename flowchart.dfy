/** The diagram the crawl feeds: a stand-in for the rendering library's
    flowchart object, reduced to what the glue code reads and writes. Nodes
    are keyed by issue key, styles by style name, and edges are an append-only
    log. Rendering is not modelled. */
module Flowchart {
  import opened Jira

  /** A node style (CSS class): name and colours; "" means unset. */
  datatype NodeStyle = NodeStyle(id: string, fill: string, stroke: string, more: string)

  /** A node. `style` names its NodeStyle, which the node shares with every
      other node of the same style, as the library's style pointer does. */
  datatype Node = Node(id: string, style: string, link: string, linkText: string, lines: seq<string>)

  /** The library's default edge shape is an arrow. */
  datatype EdgeShape = Arrow | Line

  datatype Edge = Edge(from: string, to: string, text: seq<string>, shape: EdgeShape)

  /** What a diagram holds, as a value: its nodes, styles and edges. */
  datatype Picture = Picture(nodes: map<string, Node>, styles: map<string, NodeStyle>, edges: seq<Edge>)

  /** Every node of `m` is still in `m'`, unchanged. */
  ghost predicate Extends(m: map<string, Node>, m': map<string, Node>) {
    forall k :: k in m ==> k in m' && m'[k] == m[k]
  }

  /** Every style of `s` is still in `s'`, and one that has a fill is unchanged. */
  ghost predicate StylesKept(s: map<string, NodeStyle>, s': map<string, NodeStyle>) {
    forall id :: id in s ==> id in s' && (s[id].fill != "" ==> s'[id] == s[id])
  }

  class Flowchart {
    var nodes: map<string, Node>
    var styles: map<string, NodeStyle>
    var edges: seq<Edge>

    /** Nodes sit under their own id and use a known style; styles sit under
        their own name; edges join nodes that exist. */
    ghost predicate Valid()
      reads this
    {
      && (forall k :: k in nodes ==> nodes[k].id == k && nodes[k].style in styles)
      && (forall id :: id in styles ==> styles[id].id == id)
      && (forall e :: e in edges ==> e.from in nodes && e.to in nodes)
    }

    /** The diagram's current contents. */
    function Contents(): Picture
      reads this
    {
      Picture(nodes, styles, edges)
    }

    /** `flowchart.NewFlowchart()` */
    constructor ()
      ensures Valid()
      ensures nodes == map[] && styles == map[] && edges == []
    {
      nodes, styles, edges := map[], map[], [];
    }

    /** `fc.GetNode(id)`: the node with that id, if any. */
    function GetNode(id: string): (r: Option<Node>)
      reads this
      ensures r.Some? <==> id in nodes
      ensures r.Some? ==> r.value == nodes[id]
    {
      if id in nodes then Some(nodes[id]) else None
    }

    /** `fc.NodeStyle(id)`: the style of that name, created empty when absent. */
    method StyleNamed(id: string) returns (style: NodeStyle)
      requires Valid()
      modifies this
      ensures Valid()
      ensures id in old(styles) ==> style == old(styles)[id] && styles == old(styles)
      ensures id !in old(styles) ==> style == NodeStyle(id, "", "", "") && styles == old(styles)[id := style]
      ensures style.id == id && styles[id] == style
      ensures nodes == old(nodes) && edges == old(edges)
    {
      if id in styles {
        style := styles[id];
      } else {
        style := NodeStyle(id, "", "", "");
        styles := styles[id := style];
      }
    }

    /** Writes a changed style back (the library hands out a pointer). */
    method SetStyle(style: NodeStyle)
      requires Valid() && style.id in styles
      modifies this
      ensures Valid()
      ensures styles == old(styles)[style.id := style]
      ensures nodes == old(nodes) && edges == old(edges)
    {
      styles := styles[style.id := style];
    }

    /** `fc.AddNode(id)` with the node's fields already filled in. */
    method AddNode(node: Node)
      requires Valid() && node.id !in nodes && node.style in styles
      modifies this
      ensures Valid()
      ensures nodes == old(nodes)[node.id := node]
      ensures styles == old(styles) && edges == old(edges)
    {
      nodes := nodes[node.id := node];
    }

    /** `fc.AddEdge(n1, n2)` with the edge's text and shape already set. */
    method AddEdge(e: Edge)
      requires Valid() && e.from in nodes && e.to in nodes
      modifies this
      ensures Valid()
      ensures edges == old(edges) + [e]
      ensures nodes == old(nodes) && styles == old(styles)
    {
      edges := edges + [e];
    }
  }
}
