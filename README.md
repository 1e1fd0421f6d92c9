# jiradeps: the link crawl and its diagram glue

jiradeps draws the dependency graph of a Jira issue as a Mermaid flowchart.
Starting from a root issue, it crawls the issue links depth first. Each side
of a link becomes a directed edge `from --type--> to`, and an edge is drawn
only if its signature `"<from> -- <type> --> <to>"` was not seen before in
this crawl. The signature is then recorded, and the crawl continues into the
issue at the far end. An issue that arrives without links (a stub, as the
tracker returns for link ends) is first re-fetched by its key. Every edge
drawn gets a node for both ends: one node per issue key, first write wins.
Each node is styled by the issue's status from a fixed table of nine
statuses.

The model has eight modules:

- `Jira` holds the entities: issue, link, link type, the edge candidate
  `JiraLink`, and its signature.
- `StringSets` holds the visited set `StringSet` (a class over a
  `set<string>`) and Go's string order for `List`.
- `GoStrings` holds the few library string functions the code relies on:
  `strings.TrimSpace`, `strings.ReplaceAll(s, " ", "")`, `strings.EqualFold`
  against `"relates"`, and `html.EscapeString` with the `"&#"` rewrite.
- `Flowchart` is a stand-in for the rendering library's flowchart object.
  It holds a node map keyed by issue key, a style map, and an append-only
  edge log.
- `Builder` holds `GetStatusStyle`, `AddJiraNode` and `AddLink`.
- `IssueGraph` models the tracker as a finite map from key to issue. It
  also holds the re-fetch, the edge each side of a link stands for, and the
  finite set of signatures reachable from an issue.
- `Crawls` gives the crawl as pure functions (`Crawl`, `WalkLinks`, `Visit`),
  with lemmas that state what the crawl achieves.
- `Traversal` gives `getAllLinks` and `genDepFlowchart` as methods. They
  mutate the shared `StringSet` and `Flowchart` in place and are proved
  equal to the functions of `Crawls`. `getAllLinks` is split into the
  method itself (`GetAllLinks`, the re-fetch), its link loop (`WalkAll`),
  one round of the loop (`FollowLink`), one of the two `if` blocks
  (`Follow`), and the body of the `!links.Exists` test (`Record`).

The tracker is a parameter `server: map<string, Issue>`. A fetch is a lookup
that fails when the key is absent.

Termination of the crawl is carried by a ghost parameter `bound`. It is a
finite set that holds every signature the crawl can build, and at a root it
is `Universe(root, server)`. Each new edge takes one signature out of the
room `bound - visited`, and no call gives room back. `bound` never changes
any result.

## Model

| member | source | states |
|---|---|---|
| StringSets.StringSet.constructor | main.go:174 | a new visited set is empty |
| StringSets.StringSet.Add | main.go:46-50 | the members afterwards are the old members plus `n`: adding a present member changes nothing, nothing else is added or removed, and `Exists(n)` holds afterwards |
| StringSets.StringSet.Exists | main.go:52-55 | true exactly when `n` is a member |
| StringSets.StringSet.List | main.go:57-65 | the result lists every member and nothing else, each exactly once, strictly ascending in Go's string order, and has as many entries as the set |
| StringSets.SortStrings | main.go:62 | the result is ascending and a permutation (same multiset) of the input |
| StringSets.Insert | main.go:62 | inserting into an ascending sequence keeps it ascending and adds exactly that one string |
| StringSets.SortedListing | main.go:57-65 | an ascending permutation of a set's members is strictly ascending, lists exactly the members, and has the set's size |
| StringSets.BelowAntisymmetric | main.go:62 | two strings each below the other are equal |
| StringSets.BelowTransitive | main.go:62 | the string order is transitive |
| StringSets.BelowTotal | main.go:62 | any two strings are comparable |
| Jira.JiraLink.Signature | main.go:73-75 | the edge's signature is `EdgeSignature` of its from-key, type name and to-key, and is 9 characters longer than the three together |
| Jira.EdgeSignature | main.go:73-75 | the formatted signature is 9 characters (the two separators) longer than its three parts; `SignatureLayout` gives where each part sits |
| Jira.SignatureLayout | main.go:73-75 | a signature is the from-key, `" -- "`, the type name, `" --> "` and the to-key, laid out at these positions with this length |
| Jira.SignatureInjective | main.go:73-75 | for keys without spaces, equal signatures mean equal from-key, type name and to-key |
| Jira.SignatureCollides | main.go:73-75 | the signature is not injective in general: a type name containing the separators makes two different edges collide |
| GoStrings.TrimLeft | main.go:176 | the result is a suffix of the input, everything dropped is white space, and the result does not start with white space |
| GoStrings.TrimRight | main.go:176 | the result is a prefix of the input, everything dropped is white space, and the result does not end with white space |
| GoStrings.TrimSpace | main.go:176 | the result is a slice of the input with only white space before and after it; a non-empty result neither starts nor ends with white space |
| GoStrings.TrimSpaceIdempotent | main.go:176 | trimming twice is trimming once |
| GoStrings.RemoveSpaces | main.go:78 | the style name has no U+0020, and every other character occurs exactly as often as in the status |
| GoStrings.RemoveSpacesAppend | main.go:78 | removing spaces works piece by piece, so the other characters keep their order |
| GoStrings.RemoveSpacesNoSpace | main.go:78 | a string without spaces is its own style name |
| GoStrings.EqualFold | main.go:134 | against a lower-case ASCII word: a match has the word's length, and the word matches itself |
| GoStrings.EqualFoldCases | main.go:134 | case does not matter: the upper-case spelling of a word matches it; length does: the word without its first letter does not |
| GoStrings.EscapeChar | main.go:122 | a character is kept exactly when it is not one of `< > & ' "`; no output character is `<`, `>`, `'` or `"`, and an `&` comes only from `<`, `>` or `&` |
| GoStrings.EscapeLabel | main.go:122 | an escaped label contains no `<`, `>`, `'` or `"`, and a summary without special characters is left unchanged |
| Flowchart.Flowchart.constructor | main.go:233 | a new flowchart has no nodes, styles or edges and is well formed |
| Flowchart.Flowchart.GetNode | main.go:114 | the node of that key exactly when one exists |
| Flowchart.Flowchart.StyleNamed | main.go:78 | the style of that name, created empty when absent, and nothing else changes |
| Flowchart.Flowchart.SetStyle | main.go:85-107 | that one style is replaced, nothing else changes |
| Flowchart.Flowchart.AddNode | main.go:116 | exactly one node is added under its key |
| Flowchart.Flowchart.AddEdge | main.go:131 | exactly one edge is appended |
| Builder.Recolour | main.go:84-108 | a listed status sets the fill to its colour (non-empty), the stroke to its stroke where it has one (To Do, Done) and the extra CSS to its CSS where it has some (In Progress, Ready for Production, Done), and keeps the rest; an unlisted status leaves the style as it is; the fill is empty afterwards exactly when the status is unlisted and the fill was empty before; the style keeps its name |
| Builder.Palette | main.go:84-108 | the switch has exactly the nine listed statuses as cases, spelt exactly (so `"done"` has none), and every case sets a non-empty fill |
| Builder.StatusStyle | main.go:77-108 | the style settled on for a status: the existing style named after the status without spaces when that has a fill; otherwise one with a non-empty fill exactly when the status is listed |
| Builder.RecolourIdempotent | main.go:84-108 | recolouring twice with one status is recolouring once |
| Builder.GetStatusStyle | main.go:77-111 | returns `StatusStyle` of the old styles: the style named after the status without spaces; one that already has a fill comes back untouched, otherwise the existing or new empty style is recoloured by the status; the style map afterwards is the old one with exactly that style stored, so filled styles stay as they were, and nodes and edges do not change |
| Builder.NodeOf | main.go:116-122 | the node of an issue: its key, the style named after its status without spaces, the browse link and `Jira: <key>` link text, and two label lines, `<key> - <status>` and the summary escaped so that no `<`, `>`, `'` or `"` is left |
| Builder.AddIssue | main.go:113-126 | first write wins: a key that has a node leaves the diagram as it is; otherwise the key gets `NodeOf(issue)` and the status's style becomes `StatusStyle` of the old styles, and nothing else changes; node keys grow by exactly the key, edges never change, existing nodes and filled styles are kept |
| Builder.AddJiraNode | main.go:113-126 | returns the node now stored under the key, and leaves exactly the nodes, styles and edges `AddIssue` gives for the old ones |
| Builder.EdgeFor | main.go:131-136 | the edge runs from the link's source key to its target key, its text is the type's outward phrase whichever side it came from, and it is a plain line exactly when the type name equals "relates" up to case |
| Builder.KeptTransitive | main.go:128-130 | keeping existing nodes and filled styles over two steps keeps them over both |
| Builder.Linked | main.go:128-137 | both ends are added as `AddIssue` adds them, source first, then `EdgeFor(link)` is appended: exactly one edge more, node keys grow by exactly the two end keys, existing nodes and filled styles are kept |
| Builder.LinkedNewNodes | main.go:129-130 | an end key that had no node gets the node of that end's issue; when both ends share a key, the source's issue wins |
| Builder.AddLink | main.go:128-137 | leaves exactly the nodes, styles and edges `Linked` gives for the old ones: exactly one edge, `EdgeFor(link)`, is appended; the node keys grow by exactly the two end keys; existing nodes and filled styles are untouched |
| IssueGraph.Fetch | main.go:141 | the issue of the key exactly when the tracker has it |
| IssueGraph.ExpandAsWritten | main.go:140-142 | as written: an issue with links stays; one without is replaced by the fetch result, which is nil exactly when its key cannot be fetched |
| IssueGraph.ExpandAsWrittenNil | main.go:140-142 | as written, an issue without links whose re-fetch fails leaves nil |
| IssueGraph.Expand | main.go:140-142 | an issue with links is used as it is; one without links is replaced by the issue fetched by its own key; one whose fetch fails stays a leaf; wherever the code as written has an issue, this is the same issue |
| IssueGraph.Candidate | main.go:145-169 | a side of a link gives an edge exactly when it has a reference: the outward side gives `cur --type--> outward`, the inward side gives `inward --type--> cur` |
| IssueGraph.UniverseBounds | main.go:139-171 | the signatures reachable from the root and from every issue of the tracker bound the crawl |
| IssueGraph.ExpandBounded | main.go:140-142 | the re-fetched issue is still covered by the bound |
| IssueGraph.CandidateBounded | main.go:151-155 | every candidate edge's signature is in the bound, and the bound covers the issue at its far end |
| IssueGraph.RoomShrinks | main.go:153 | visiting more signatures leaves no more room in the bound |
| IssueGraph.RoomShrinksStrictly | main.go:153-154 | recording a new signature of the bound before recursing leaves strictly less room, so the crawl terminates |
| Crawls.Crawl | main.go:139-171 | a crawl first re-fetches, then walks the links; it terminates and never gives room back |
| Crawls.WalkLinks | main.go:144-170 | the links from index `i` on, in order, outward side then inward side of each; it never gives room back |
| Crawls.Visit | main.go:145-169 | one side of a link: a new edge is emitted, recorded, and crawled into; a seen or absent edge does nothing; it never gives room back |
| Crawls.Round | main.go:144-170 | one round of the link loop, outward side then inward side; it never gives room back |
| Crawls.SigSetAppend | main.go:151-168 | the signatures of two runs of steps are the union of their signatures |
| Crawls.SeenMeansDrawn | main.go:151-153 | with space-free keys, an edge whose signature is among the emitted ones was emitted with that same from-key, type name and to-key, so the `Exists` test skips only true duplicates |
| Crawls.SigSetSize | main.go:151-168 | a run of steps has no more distinct signatures than steps |
| Crawls.FreshAppend | main.go:151-168 | two runs of fresh steps, the second fresh after the first, make one fresh run |
| Crawls.Then | main.go:144-170 | two crawls one after the other make a crawl: the visited set grows by exactly the new signatures |
| Crawls.FreshMeans | main.go:151-168 | fresh steps have pairwise different signatures, none of them visited before |
| Crawls.ExploredAppend | main.go:154 | the issues crawled into by two runs are all explored once both are done |
| Crawls.ExploredMeans | main.go:154 | every issue the crawl went into has all of its own edges visited |
| Crawls.SoundThen | main.go:144-170 | two sound crawls in a row make a sound crawl, and the visited set only grows |
| Crawls.SoundCons | main.go:151-155 | emitting a new edge and then soundly crawling into its fully explored far end is sound |
| Crawls.CrawlSound | main.go:139-171 | a crawl grows the visited set by exactly the signatures it emits, which are new, pairwise different and edges of the graph; the issue and every issue crawled into have all of their own edges visited |
| Crawls.WalkSound | main.go:144-170 | walking links `i..` is sound and visits every edge on those links |
| Crawls.VisitSound | main.go:145-169 | one side of a link is handled soundly, and its edge, if it has one, is visited afterwards |
| Crawls.NewEdgeSound | main.go:151-155 | a new edge is emitted, and the crawl into its far end is sound |
| Crawls.RootCrawl | main.go:174-186 | from a fresh, empty visited set: the final visited set is exactly the emitted signatures, one per emitted edge and no signature twice, all of them edges of the graph; the root and every issue crawled into have all of their own edges visited |
| Crawls.FailedFetchIsLeaf | main.go:140-142 | an issue without links whose re-fetch fails emits nothing |
| Crawls.WalkStep | main.go:144-170 | the walk is a round on link `i`, then the rest |
| Crawls.VisitNew | main.go:151-155 | a new edge is emitted first, then the crawl into its far end |
| Crawls.VisitSkip | main.go:145-169 | an absent or already visited edge emits nothing and records nothing |
| Crawls.WalkStop | main.go:144 | past the last link the walk emits nothing |
| Traversal.StepsAppend | main.go:152 | the edges and end keys of two runs of steps are those of each run, joined |
| Traversal.FirstNode | main.go:113-130 | the node the first end with key `k` along the steps would draw carries key `k` |
| Traversal.FirstNodeFound | main.go:152 | some end along the steps has key `k` exactly when `k` is an end key of the steps |
| Traversal.FirstNodeAppend | main.go:113-115 | along two runs of steps the first end with a key lies in the first run when that run has one (first write wins) |
| Traversal.DrewLink | main.go:129-130 | drawing one step's edge gives every new node key the node of the first of its two ends with that key |
| Traversal.DrewAppend | main.go:113-115 | new nodes drawn by two runs of steps in a row are, key by key, the nodes of the first end with that key along both runs |
| Traversal.TalliesAppend | main.go:152 | edges and end keys drawn by two runs of steps in a row are those of the joined run |
| Traversal.DrawnAppend | main.go:144-170 | drawing two runs of steps in a row is drawing the joined run: edges, node keys, new node contents, kept nodes and filled styles |
| Traversal.DrawnCons | main.go:151-155 | drawing one step's edge and then crawling on is drawing the run with that step in front |
| Traversal.StepsCons | main.go:152-154 | drawing one edge and then a run of steps is drawing the run with that step in front |
| Traversal.Advance | main.go:144-170 | the link loop's invariant carries over one round |
| Traversal.GetAllLinks | main.go:139-171 | the visited set afterwards is `Crawl`'s; the edges drawn are `Crawl`'s, in order; the node keys grow by exactly their end keys; every new node is the node of the first issue along the drawn edges with that key; existing nodes and filled styles are untouched |
| Traversal.WalkAll | main.go:144-170 | the link loop leaves the visited set, edges, node keys and new node contents that `WalkLinks` from link 0 gives |
| Traversal.FollowLink | main.go:145-169 | one round of the loop leaves the visited set, edges, node keys and new node contents `Round` gives |
| Traversal.Follow | main.go:145-156 | one `if` block leaves the visited set, edges, node keys and new node contents `Visit` gives |
| Traversal.Record | main.go:151-155 | drawing a new edge, recording its signature and recursing leaves the visited set, edges, node keys and new node contents `Visit` gives |
| Traversal.GenDepFlowchart | main.go:173-189 | the root is fetched by its trimmed key; a failed fetch is reported as `GetIssueFailed` and draws nothing; otherwise the edges drawn are those of the crawl from a fresh, empty visited set, the node keys grow by exactly their end keys, every new node is the node of the first issue along those edges with its key, and existing nodes and filled styles are untouched |

## Left out

- `getAuthCreds` (main.go:25-42) reads a file, expands an environment variable and parses JSON. That is I/O and a foreign library. Its one check, rejecting an empty username or token (main.go:37-39), is not modelled either.
- The Jira client is not modelled: HTTP, authentication, and `Issue.Get` as a remote call. A fetch is a lookup in a finite map. The error of the root fetch is modelled only as "the key is absent".
- `Traversal.GenDepFlowchart`: the returned error carries no text. The source wraps the library's error as `error getting issue: %w` (main.go:178), and that library error is not part of this model.
- `IssueGraph.Fetch` has no transient failures. A key present in the map always fetches, because the map is fixed for the whole crawl.
- The printing in `genDepFlowchart` (main.go:181-184) is output only. So is `promptForIssue`, and so is `main` with its loop over roots, its exit code and its rendering (main.go:191-249).
- `main` loops over several roots, each with a new flowchart (main.go:232-247). That loop is not modelled. `GenDepFlowchart` models one root, and the fresh visited set it creates.
- The rendering library is replaced by a node map, a style map and an edge log. This covers `flow.String()`, `LiveURL()`, `ListNodes()`, the shared style pointer (modelled by name) and the library's own checks.
- `Flowchart.Flowchart.StyleNamed` assumes something about the library's `NodeStyle(id)`: that it returns the existing style of that name, or a new empty one registered under it.
- `Builder.ColorGreen` assumes something about the library's `flowchart.ColorGreen`: that it is HTML green, `#008000`. The value is not in the repository.
- Only the fields the code sets are modelled: node link, link text and lines, and edge text and shape. Style stroke width and the like are left out.
- `Builder.AddJiraNode` assumes an issue always has its fields and a status. A nil `Fields` or `Status` on a link stub is not modelled.
- `GoStrings.EqualFold` is modelled only against a lower-case ASCII word, which is the only way the code uses it (`"relates"`). So it covers ASCII case and the two non-ASCII characters that fold to `s` and `k`, not Unicode case folding in general.
- `GoStrings.IsSpace` lists the Unicode White_Space characters that `unicode.IsSpace` accepts. The table is written out, not derived.
- Go strings are byte sequences and may hold invalid UTF-8. The model's strings are sequences of characters, so an issue key, status or summary with invalid UTF-8 is not modelled.
- `StringSets.SortStrings` proves the result of `sort.Strings` (ascending, same strings) and not the library's algorithm. Go strings compare byte-wise on UTF-8, which orders the same as comparing code points, and the model compares code points.
- `Crawls.Crawl`, `Crawls.WalkLinks`, `Crawls.Visit` and `Crawls.Round` state in their own contracts only that the room never grows. What the crawl achieves is stated by `CrawlSound`, `WalkSound`, `VisitSound` and `RootCrawl`.
- `Traversal.GetAllLinks`, `Traversal.WalkAll`, `Traversal.FollowLink`, `Traversal.Follow`, `Traversal.Record` and `Traversal.GenDepFlowchart` state which nodes the crawl adds and what each new node holds, and that filled styles are kept. They do not state the final colours of the styles created during the crawl; `Builder.AddJiraNode` and `Builder.AddLink` state those exactly for each call.
- `Jira.EdgeSignature`: the signature is injective only when the issue keys contain no spaces (`SignatureInjective`). In general it is not (`SignatureCollides`), and the model claims no more.

## Findings

| source | as written | input that shows it | evidently intended | confidence | as-written member | corrected member |
|---|---|---|---|---|---|---|
| main.go:140-144 | The re-fetch of an issue without links ignores the error and assigns the result. After a failed fetch the issue is nil, and line 144 dereferences it. | A linked issue stub whose key the tracker cannot return, for example one the user may not read. Its link list is empty, `Issue.Get` fails, and the crawl dereferences nil. | A failed re-fetch leaves the issue as a leaf: no links followed, and the crawl carries on with the rest. | not executed | IssueGraph.ExpandAsWritten, IssueGraph.ExpandAsWrittenNil | IssueGraph.Expand, Crawls.FailedFetchIsLeaf |
