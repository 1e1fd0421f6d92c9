/** The issue-tracker entities the crawl reads, and the edge signature that
    identifies an edge for de-duplication. */
module Jira {

  datatype Option<+T> = None | Some(value: T)

  /** A link type: its name ("Blocks") and its two directional phrases
      ("blocks" / "is blocked by"). */
  datatype LinkType = LinkType(name: string, inward: string, outward: string)

  /** One link on an issue. The tracker fills in the other end on one side
      only: `outwardIssue` when this issue points at it, `inwardIssue` when it
      points at this issue. The far end is an issue reference, usually a stub
      whose own link list is empty. */
  datatype IssueLink = IssueLink(linkType: LinkType, outwardIssue: Option<Issue>, inwardIssue: Option<Issue>)

  /** An issue: key, summary, status name, and its links. */
  datatype Issue = Issue(key: string, summary: string, status: string, links: seq<IssueLink>)

  /** A directed edge candidate `from --type--> to`, as the crawl builds it. */
  datatype JiraLink = JiraLink(from: Issue, link: IssueLink, to: Issue) {
    /** The de-duplication key of the edge (`JiraLink.String`); its layout is
        given by `SignatureLayout`. */
    function Signature(): (r: string)
      ensures |r| == |from.key| + |link.linkType.name| + |to.key| + 9
    {
      EdgeSignature(from.key, link.linkType.name, to.key)
    }
  }

  /** `"<from> -- <type> --> <to>"`. The separators are not escaped. */
  function EdgeSignature(from: string, typeName: string, to: string): (r: string)
    ensures |r| == |from| + |typeName| + |to| + 9
  {
    from + " -- " + typeName + " --> " + to
  }

  /** The layout of a signature: the from-key, `" -- "`, the type name,
      `" --> "`, the to-key. */
  lemma SignatureLayout(from: string, typeName: string, to: string)
    ensures var r := EdgeSignature(from, typeName, to);
      && r[..|from|] == from && r[|from|..|from| + 4] == " -- "
      && r[|from| + 4..|r| - |to| - 5] == typeName
      && r[|r| - |to|..] == to && r[|r| - |to| - 5..|r| - |to|] == " --> "
  {
  }

  predicate NoSpace(s: string) {
    ' ' !in s
  }

  /** Issue keys carry no spaces ("PROJ-123"). For such keys the signature
      determines the edge completely: from-key, type name and to-key are
      recovered from it, so two different edges never share a signature. */
  lemma SignatureInjective(f1: string, t1: string, k1: string, f2: string, t2: string, k2: string)
    requires NoSpace(f1) && NoSpace(k1) && NoSpace(f2) && NoSpace(k2)
    requires EdgeSignature(f1, t1, k1) == EdgeSignature(f2, t2, k2)
    ensures f1 == f2 && t1 == t2 && k1 == k2
  {
    var s := EdgeSignature(f1, t1, k1);
    SignatureLayout(f1, t1, k1);
    SignatureLayout(f2, t2, k2);
    // the from-key is everything before the first space
    assert forall j :: 0 <= j < |f1| ==> s[j] != ' ';
    assert forall j :: 0 <= j < |f2| ==> s[j] != ' ';
    assert s[|f1|] == ' ' && s[|f2|] == ' ';
    assert f1 == s[..|f1|] == f2;
    // the to-key is everything after the last space
    assert forall j :: |s| - |k1| <= j < |s| ==> s[j] != ' ';
    assert forall j :: |s| - |k2| <= j < |s| ==> s[j] != ' ';
    assert s[|s| - |k1| - 1] == ' ' && s[|s| - |k2| - 1] == ' ';
    assert k1 == s[|s| - |k1|..] == k2;
    assert t1 == s[|f1| + 4..|s| - |k1| - 5] == t2;
  }

  /** Without that restriction the signature is not injective: a type name
      containing the separators makes two different edges collide. */
  lemma SignatureCollides()
    ensures EdgeSignature("A", "x --> B -- t", "C") == EdgeSignature("A -- x --> B", "t", "C")
    ensures "A" != "A -- x --> B"
  {
  }
}
