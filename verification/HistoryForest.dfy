/** The conversation history forest: an arbitrary parent relation, possibly cyclic or dangling, becomes
    a forest, then one flat list, then pages
    (shared/conversationHistoryTree.ts, lines 39-131 and 157-215). */
module HistoryForest {
  import opened Options
  import opened ParentChains

  datatype Entry = Entry(id: Id, updatedAt: int, createdAt: int)
  /** An empty sourceConversationId stands for an absent one, as in the source's truth tests. */
  datatype OriginLink = OriginLink(id: Id, conversationId: Id, sourceConversationId: Id, createdAt: int)
  /** A tree node; the nodes of a forest live in one table and name their children by id. */
  datatype Node = Node(entry: Entry, link: Option<OriginLink>, parent: Option<Id>, children: seq<Id>, latest: int)
  datatype Forest = Forest(nodes: map<Id, Node>, roots: seq<Id>)

  /** The rank of a string in the collation used to break ties. */
  type Collation = string -> int

  // ----- which links become parents

  function CompareOriginLinks(left: OriginLink, right: OriginLink, order: Collation): int {
    if left.createdAt != right.createdAt then left.createdAt - right.createdAt else order(left.id) - order(right.id)
  }

  /** The link at i is an earliest one of the conversation, and the first such one. */
  ghost predicate EarliestAt(links: seq<OriginLink>, id: Id, i: nat, order: Collation) {
    && i < |links| && links[i].conversationId == id
    && forall j: nat | j < |links| && links[j].conversationId == id ::
      var c := CompareOriginLinks(links[j], links[i], order);
      c >= 0 && (j < i ==> c > 0)
  }

  ghost predicate IsEarliest(links: seq<OriginLink>, id: Id, link: OriginLink, order: Collation) {
    exists i: nat :: EarliestAt(links, id, i, order) && links[i] == link
  }

  ghost predicate IsSelection(links: seq<OriginLink>, selected: map<Id, OriginLink>, order: Collation) {
    && (forall i | 0 <= i < |links| && links[i].conversationId != "" :: links[i].conversationId in selected)
    && (forall id | id in selected :: id != "" && IsEarliest(links, id, selected[id], order))
  }

  /** What an earliest link is: no link of its conversation was created before it, of those created at the same time
      none has a lower id, and of those with an equal one it stands first. */
  lemma EarliestMeans(links: seq<OriginLink>, id: Id, i: nat, order: Collation)
    requires i < |links|
    ensures EarliestAt(links, id, i, order) <==> links[i].conversationId == id && forall j: nat | j < |links| && links[j].conversationId == id ::
      && links[i].createdAt <= links[j].createdAt
      && (links[i].createdAt == links[j].createdAt ==> order(links[i].id) <= order(links[j].id))
      && (links[i].createdAt == links[j].createdAt && order(links[i].id) == order(links[j].id) ==> i <= j)
  {}

  lemma SelectionGrows(links: seq<OriginLink>, i: nat, id: Id, chosen: OriginLink, order: Collation)
    requires i < |links| && IsEarliest(links[..i], id, chosen, order)
    ensures IsEarliest(links[..i + 1], id,
              if links[i].conversationId == id && CompareOriginLinks(links[i], chosen, order) < 0 then links[i] else chosen, order)
  {
    var k: nat :| EarliestAt(links[..i], id, k, order) && links[..i][k] == chosen;
    assert forall j: nat | j < i :: links[..i][j] == links[..i + 1][j];
    var replaced := links[i].conversationId == id && CompareOriginLinks(links[i], chosen, order) < 0;
    assert EarliestAt(links[..i + 1], id, if replaced then i else k, order);
  }

  lemma FirstLink(links: seq<OriginLink>, i: nat, id: Id, order: Collation)
    requires i < |links| && links[i].conversationId == id
    requires forall j: nat | j < i :: links[j].conversationId != id
    ensures IsEarliest(links[..i + 1], id, links[i], order)
  {
    assert EarliestAt(links[..i + 1], id, i, order);
  }

  method SelectConversationOriginLinks(links: seq<OriginLink>, order: Collation) returns (selected: map<Id, OriginLink>)
    ensures IsSelection(links, selected, order)
  {
    selected := map[];
    for i := 0 to |links|
      invariant IsSelection(links[..i], selected, order)
    {
      var link := links[i];
      ghost var before := selected;
      if link.conversationId != "" {
        var existing := Get(selected, link.conversationId);
        if existing == None || CompareOriginLinks(link, existing.value, order) < 0 {
          selected := selected[link.conversationId := link];
        }
      }
      assert links[..i + 1] == links[..i] + [link];
      forall id | id in selected ensures id != "" && IsEarliest(links[..i + 1], id, selected[id], order) {
        if id in before {
          SelectionGrows(links, i, id, before[id], order);
        } else {
          FirstLink(links, i, id, order);
        }
      }
    }
    assert links[..|links|] == links;
  }

  /** The conversation's claim to a parent: its link names another listed conversation. */
  predicate HasClaim(ids: set<Id>, selected: map<Id, OriginLink>, id: Id) {
    && id in selected && id in ids
    && var source := selected[id].sourceConversationId; source != "" && source != id && source in ids
  }

  ghost function Claims(ids: set<Id>, selected: map<Id, OriginLink>): Parents {
    map id | id in ids && HasClaim(ids, selected, id) :: selected[id].sourceConversationId
  }

  /** A claim is kept exactly when the chain of claims it starts comes to an end. */
  ghost function Kept(claims: Parents): Parents {
    map id | id in claims && ChainEnds(claims, id) :: claims[id]
  }

  lemma {:induction false} KeptEndsWithin(claims: Parents, id: Id, n: nat)
    requires EndsWithin(claims, id, n)
    ensures EndsWithin(Kept(claims), id, n)
    decreases n
  {
    if id in claims { KeptEndsWithin(claims, claims[id], n - 1); }
  }

  lemma KeptAllEnd(claims: Parents)
    ensures AllEnd(Kept(claims))
  {
    forall id ensures ChainEnds(Kept(claims), id) {
      if ChainEnds(claims, id) {
        var n: nat :| EndsWithin(claims, id, n);
        KeptEndsWithin(claims, id, n);
      } else {
        assert EndsWithin(Kept(claims), id, 0);
      }
    }
  }

  // ----- building the table

  ghost predicate LastAt(entries: seq<Entry>, id: Id, i: nat) {
    && i < |entries| && entries[i].id == id
    && forall j: nat | i < j < |entries| :: entries[j].id != id
  }

  ghost predicate IsLast(entries: seq<Entry>, id: Id, entry: Entry) {
    exists i: nat :: LastAt(entries, id, i) && entries[i] == entry
  }

  /** Every non-empty id has its last entry. */
  ghost predicate IsEntryTable(entries: seq<Entry>, byId: map<Id, Entry>) {
    && (forall i | 0 <= i < |entries| && entries[i].id != "" :: entries[i].id in byId)
    && (forall id | id in byId :: id != "" && IsLast(entries, id, byId[id]))
  }

  lemma EntryTableGrows(entries: seq<Entry>, i: nat, byId: map<Id, Entry>, id: Id)
    requires i < |entries| && IsEntryTable(entries[..i], byId)
    requires id == entries[i].id != "" || id in byId
    ensures IsLast(entries[..i + 1], id, if id == entries[i].id then entries[i] else byId[id])
  {
    if id == entries[i].id {
      assert LastAt(entries[..i + 1], id, i);
    } else {
      var k: nat :| LastAt(entries[..i], id, k) && entries[..i][k] == byId[id];
      assert forall j: nat | j < i :: entries[..i + 1][j] == entries[..i][j];
      assert LastAt(entries[..i + 1], id, k);
    }
  }

  method IndexEntries(entries: seq<Entry>) returns (byId: map<Id, Entry>)
    ensures IsEntryTable(entries, byId)
  {
    byId := map[];
    for i := 0 to |entries|
      invariant IsEntryTable(entries[..i], byId)
    {
      var entry := entries[i];
      ghost var before := byId;
      if entry.id != "" { byId := byId[entry.id := entry]; }
      assert entries[..i + 1] == entries[..i] + [entry];
      forall id | id in byId ensures id != "" && IsLast(entries[..i + 1], id, byId[id]) {
        EntryTableGrows(entries, i, before, id);
      }
    }
    assert entries[..|entries|] == entries;
  }

  ghost predicate Distinct(ids: seq<Id>) {
    forall id | id in ids :: multiset(ids)[id] == 1
  }

  ghost predicate IsFreshNode(byId: map<Id, Entry>, selected: map<Id, OriginLink>, id: Id, node: Node) {
    id in byId && node.entry == byId[id] && node.link == Get(selected, id)
  }

  /** The children of p among those already attached, each once. */
  ghost predicate HasChildren(kept: Parents, attached: set<Id>, p: Id, children: seq<Id>) {
    && Distinct(children)
    && forall c :: c in children <==> c in attached && Get(kept, c) == Some(p)
  }

  ghost predicate HasRoots(kept: Parents, attached: set<Id>, roots: seq<Id>) {
    && Distinct(roots)
    && forall c :: c in roots <==> c in attached && c !in kept
  }

  ghost predicate AttachedNode(byId: map<Id, Entry>, selected: map<Id, OriginLink>, kept: Parents, attached: set<Id>, id: Id, node: Node) {
    && IsFreshNode(byId, selected, id, node)
    && node.parent == (if id in attached then Get(kept, id) else None)
    && HasChildren(kept, attached, id, node.children)
  }

  lemma AttachOne(kept: Parents, attached: set<Id>, c: Id, p: Id, children: seq<Id>)
    requires HasChildren(kept, attached, p, children) && c !in attached
    ensures HasChildren(kept, attached + {c}, p, if Get(kept, c) == Some(p) then children + [c] else children)
  {}

  lemma RootOne(kept: Parents, attached: set<Id>, c: Id, roots: seq<Id>)
    requires HasRoots(kept, attached, roots) && c !in attached
    ensures HasRoots(kept, attached + {c}, if c in kept then roots else roots + [c])
  {}

  /** What attaching c changes in the node of x. */
  ghost function AfterAttach(kept: Parents, c: Id, x: Id, node: Node): Node {
    node.(parent := if x == c then Get(kept, c) else node.parent,
          children := if Get(kept, c) == Some(x) then node.children + [c] else node.children)
  }

  lemma AttachKeeps(byId: map<Id, Entry>, selected: map<Id, OriginLink>, kept: Parents, attached: set<Id>, c: Id, x: Id, node: Node)
    requires AttachedNode(byId, selected, kept, attached, x, node) && c !in attached
    ensures AttachedNode(byId, selected, kept, attached + {c}, x, AfterAttach(kept, c, x, node))
  {
    AttachOne(kept, attached, c, x, node.children);
  }

  ghost predicate Attached(byId: map<Id, Entry>, selected: map<Id, OriginLink>, kept: Parents, attached: set<Id>, forest: Forest) {
    && forest.nodes.Keys == byId.Keys
    && HasRoots(kept, attached, forest.roots)
    && forall id | id in forest.nodes :: AttachedNode(byId, selected, kept, attached, id, forest.nodes[id])
  }

  lemma NothingAttached(byId: map<Id, Entry>, selected: map<Id, OriginLink>, kept: Parents, nodes: map<Id, Node>)
    requires nodes.Keys == byId.Keys
    requires forall id | id in byId :: nodes[id] == Node(byId[id], Get(selected, id), None, [], byId[id].updatedAt)
    ensures Attached(byId, selected, kept, {}, Forest(nodes, []))
  {}

  lemma AttachStep(byId: map<Id, Entry>, selected: map<Id, OriginLink>, kept: Parents, attached: set<Id>, c: Id, before: Forest, after: Forest)
    requires Attached(byId, selected, kept, attached, before) && c !in attached
    requires after.nodes.Keys == before.nodes.Keys
    requires forall x | x in before.nodes :: after.nodes[x] == AfterAttach(kept, c, x, before.nodes[x])
    requires after.roots == if c in kept then before.roots else before.roots + [c]
    ensures Attached(byId, selected, kept, attached + {c}, after)
  {
    RootOne(kept, attached, c, before.roots);
    forall x | x in after.nodes ensures AttachedNode(byId, selected, kept, attached + {c}, x, after.nodes[x]) {
      AttachKeeps(byId, selected, kept, attached, c, x, before.nodes[x]);
    }
  }

  lemma RootStep(byId: map<Id, Entry>, selected: map<Id, OriginLink>, kept: Parents, attached: set<Id>, c: Id, before: Forest)
    requires Attached(byId, selected, kept, attached, before) && c in byId && c !in attached && c !in kept
    ensures Attached(byId, selected, kept, attached + {c}, before.(roots := before.roots + [c]))
  {
    assert AttachedNode(byId, selected, kept, attached, c, before.nodes[c]);
    AttachStep(byId, selected, kept, attached, c, before, before.(roots := before.roots + [c]));
  }

  /** The two field updates that put c under its parent. */
  function Linked(nodes: map<Id, Node>, c: Id, p: Id): map<Id, Node>
    requires c in nodes && p in nodes
  {
    var withParent := nodes[c := nodes[c].(parent := Some(p))];
    withParent[p := withParent[p].(children := withParent[p].children + [c])]
  }

  lemma ChildStep(byId: map<Id, Entry>, selected: map<Id, OriginLink>, kept: Parents, attached: set<Id>, c: Id, before: Forest)
    requires Attached(byId, selected, kept, attached, before) && c in byId && c !in attached
    requires c in kept && kept[c] in byId && kept[c] != c
    ensures c in before.nodes && kept[c] in before.nodes
    ensures Attached(byId, selected, kept, attached + {c}, before.(nodes := Linked(before.nodes, c, kept[c])))
  {
    AttachStep(byId, selected, kept, attached, c, before, before.(nodes := Linked(before.nodes, c, kept[c])));
  }

  /** The parent of a kept claim is another listed conversation. */
  lemma KeptTarget(ids: set<Id>, selected: map<Id, OriginLink>, id: Id)
    ensures var claims := Claims(ids, selected); id in Kept(claims) <==> id in claims && ChainEnds(claims, id)
    ensures var claims := Claims(ids, selected); id in Kept(claims) ==> Kept(claims)[id] == claims[id]
    ensures var kept := Kept(Claims(ids, selected)); id in kept ==> id in ids && kept[id] in ids && kept[id] != id
  {}

  /** Maps each claim; a claim is dropped as cyclic when the chain it starts never ends. */
  method ResolveParents(byId: map<Id, Entry>, selected: map<Id, OriginLink>) returns (parents: Parents, cyclic: set<Id>)
    requires "" !in byId
    ensures parents == Claims(byId.Keys, selected)
    ensures forall id :: id in cyclic <==> id in parents && !ChainEnds(parents, id)
  {
    parents := map[];
    var todo := selected.Keys;
    while todo != {}
      invariant todo <= selected.Keys
      invariant forall id :: id in parents <==> id in selected && id !in todo && HasClaim(byId.Keys, selected, id)
      invariant forall id | id in parents :: parents[id] == selected[id].sourceConversationId
      decreases |todo|
    {
      var id :| id in todo;
      todo := todo - {id};
      var source := selected[id].sourceConversationId;
      if !(source == "" || source == id) && !(id !in byId || source !in byId) {
        parents := parents[id := source];
      }
    }
    cyclic := {};
    todo := parents.Keys;
    while todo != {}
      invariant todo <= parents.Keys
      invariant forall id :: id in cyclic <==> id in parents && id !in todo && !ChainEnds(parents, id)
      decreases |todo|
    {
      var id :| id in todo;
      todo := todo - {id};
      var inCycle := ParentPathContainsCycle(id, parents);
      if inCycle { cyclic := cyclic + {id}; }
    }
  }

  method AttachNodes(byId: map<Id, Entry>, selected: map<Id, OriginLink>, parents: Parents, cyclic: set<Id>)
    returns (nodes: map<Id, Node>, roots: seq<Id>)
    requires "" !in byId
    requires parents == Claims(byId.Keys, selected)
    requires forall id :: id in cyclic <==> id in parents && !ChainEnds(parents, id)
    ensures Attached(byId, selected, Kept(parents), byId.Keys, Forest(nodes, roots))
  {
    hide Attached, Kept, ChainEnds, Claims, HasClaim, Get;
    nodes := map id | id in byId :: Node(byId[id], Get(selected, id), None, [], byId[id].updatedAt);
    roots := [];
    ghost var kept := Kept(parents);
    NothingAttached(byId, selected, kept, nodes);
    var todo := byId.Keys;
    assert byId.Keys - todo == {};
    while todo != {}
      invariant todo <= byId.Keys && nodes.Keys == byId.Keys
      invariant Attached(byId, selected, kept, byId.Keys - todo, Forest(nodes, roots))
      decreases |todo|
    {
      var id :| id in todo;
      var parent := if id in cyclic || id !in parents then None else Some(parents[id]);
      KeptTarget(byId.Keys, selected, id);
      assert byId.Keys - (todo - {id}) == (byId.Keys - todo) + {id};
      if parent == None || parent.value !in nodes || parent.value == id {
        RootStep(byId, selected, kept, byId.Keys - todo, id, Forest(nodes, roots));
        roots := roots + [id];
      } else {
        ChildStep(byId, selected, kept, byId.Keys - todo, id, Forest(nodes, roots));
        nodes := nodes[id := nodes[id].(parent := parent)];
        nodes := nodes[parent.value := nodes[parent.value].(children := nodes[parent.value].children + [id])];
      }
      todo := todo - {id};
    }
    assert byId.Keys - todo == byId.Keys;
  }

  // ----- ordering siblings

  function CompareNodes(left: Node, right: Node, order: Collation): int {
    if right.latest != left.latest then right.latest - left.latest
    else if right.entry.updatedAt != left.entry.updatedAt then right.entry.updatedAt - left.entry.updatedAt
    else if right.entry.createdAt != left.entry.createdAt then right.entry.createdAt - left.entry.createdAt
    else order(right.entry.id) - order(left.entry.id)
  }

  ghost predicate InOrder(nodes: map<Id, Node>, order: Collation, ids: seq<Id>) {
    forall i: nat, j: nat | i < j < |ids| ::
      ids[i] in nodes && ids[j] in nodes && CompareNodes(nodes[ids[i]], nodes[ids[j]], order) <= 0
  }

  function InsertNode(nodes: map<Id, Node>, order: Collation, id: Id, sorted: seq<Id>): (r: seq<Id>)
    requires id in nodes && forall x | x in sorted :: x in nodes
    ensures multiset(r) == multiset(sorted) + multiset{id}
    ensures forall x :: x in r <==> x in sorted || x == id
  {
    if sorted == [] || CompareNodes(nodes[id], nodes[sorted[0]], order) <= 0 then [id] + sorted
    else
      assert sorted == [sorted[0]] + sorted[1..];
      [sorted[0]] + InsertNode(nodes, order, id, sorted[1..])
  }

  /** A stable sort, as Array.prototype.sort is. */
  function SortNodes(nodes: map<Id, Node>, order: Collation, ids: seq<Id>): (r: seq<Id>)
    requires forall x | x in ids :: x in nodes
    ensures multiset(r) == multiset(ids)
    ensures forall x :: x in r <==> x in ids
  {
    if ids == [] then []
    else
      assert ids == [ids[0]] + ids[1..];
      InsertNode(nodes, order, ids[0], SortNodes(nodes, order, ids[1..]))
  }

  lemma {:induction false} InsertKeepsOrder(nodes: map<Id, Node>, order: Collation, id: Id, sorted: seq<Id>)
    requires id in nodes && (forall x | x in sorted :: x in nodes) && InOrder(nodes, order, sorted)
    ensures InOrder(nodes, order, InsertNode(nodes, order, id, sorted))
  {
    if sorted != [] && CompareNodes(nodes[id], nodes[sorted[0]], order) > 0 {
      InsertKeepsOrder(nodes, order, id, sorted[1..]);
      var rest := InsertNode(nodes, order, id, sorted[1..]);
      forall j: nat | j < |rest| ensures CompareNodes(nodes[sorted[0]], nodes[rest[j]], order) <= 0 {
        assert rest[j] in sorted[1..] || rest[j] == id;
      }
    }
  }

  lemma {:induction false} SortGivesOrder(nodes: map<Id, Node>, order: Collation, ids: seq<Id>)
    requires forall x | x in ids :: x in nodes
    ensures InOrder(nodes, order, SortNodes(nodes, order, ids))
  {
    if ids != [] {
      SortGivesOrder(nodes, order, ids[1..]);
      InsertKeepsOrder(nodes, order, ids[0], SortNodes(nodes, order, ids[1..]));
    }
  }

  /** The conversations among ids that compare equal to the node, as they come. */
  function Ties(nodes: map<Id, Node>, order: Collation, node: Node, ids: seq<Id>): seq<Id>
    requires forall x | x in ids :: x in nodes
  {
    if ids == [] then [] else (if CompareNodes(nodes[ids[0]], node, order) == 0 then [ids[0]] else []) + Ties(nodes, order, node, ids[1..])
  }

  lemma {:induction false} InsertGoesFirst(nodes: map<Id, Node>, order: Collation, id: Id, sorted: seq<Id>, node: Node)
    requires id in nodes && forall x | x in sorted :: x in nodes
    ensures Ties(nodes, order, node, InsertNode(nodes, order, id, sorted)) == Ties(nodes, order, node, [id] + sorted)
  {
    hide CompareNodes, Ties;
    if sorted != [] && CompareNodes(nodes[id], nodes[sorted[0]], order) > 0 {
      InsertGoesFirst(nodes, order, id, sorted[1..], node);
      assert sorted == [sorted[0]] + sorted[1..];
      TiesPassBy(nodes, order, id, sorted[0], sorted[1..], InsertNode(nodes, order, id, sorted[1..]), node);
    }
  }

  /** A node that goes behind d, which compares different, meets its own ties where it met them before. */
  lemma TiesPassBy(nodes: map<Id, Node>, order: Collation, id: Id, d: Id, tail: seq<Id>, rest: seq<Id>, node: Node)
    requires id in nodes && d in nodes && (forall x | x in tail :: x in nodes) && forall x | x in rest :: x in nodes
    requires CompareNodes(nodes[id], nodes[d], order) > 0
    requires Ties(nodes, order, node, rest) == Ties(nodes, order, node, [id] + tail)
    ensures Ties(nodes, order, node, [d] + rest) == Ties(nodes, order, node, [id] + ([d] + tail))
  {
    NotBothTie(nodes, order, id, d, node);
    hide CompareNodes, Ties;
    TiesPush(nodes, order, node, d, rest);
    TiesPush(nodes, order, node, id, tail);
    TiesPush(nodes, order, node, d, tail);
    TiesPush(nodes, order, node, id, [d] + tail);
    OneIsEmpty(if CompareNodes(nodes[id], node, order) == 0 then [id] else [],
               if CompareNodes(nodes[d], node, order) == 0 then [d] else [], Ties(nodes, order, node, tail));
  }

  lemma OneIsEmpty(a: seq<Id>, b: seq<Id>, c: seq<Id>)
    requires a == [] || b == []
    ensures b + (a + c) == a + (b + c)
  {}

  lemma NotBothTie(nodes: map<Id, Node>, order: Collation, c: Id, d: Id, node: Node)
    requires c in nodes && d in nodes && CompareNodes(nodes[c], nodes[d], order) > 0
    ensures !(CompareNodes(nodes[c], node, order) == 0 && CompareNodes(nodes[d], node, order) == 0)
  {}

  lemma TiesPush(nodes: map<Id, Node>, order: Collation, node: Node, id: Id, ids: seq<Id>)
    requires id in nodes && forall x | x in ids :: x in nodes
    ensures Ties(nodes, order, node, [id] + ids)
         == (if CompareNodes(nodes[id], node, order) == 0 then [id] else []) + Ties(nodes, order, node, ids)
  {
    assert ([id] + ids)[1..] == ids;
  }

  /** Nodes that compare equal keep their order. */
  lemma {:induction false} SortIsStable(nodes: map<Id, Node>, order: Collation, ids: seq<Id>, node: Node)
    requires forall x | x in ids :: x in nodes
    ensures Ties(nodes, order, node, SortNodes(nodes, order, ids)) == Ties(nodes, order, node, ids)
  {
    if ids != [] {
      var rest := SortNodes(nodes, order, ids[1..]);
      SortIsStable(nodes, order, ids[1..], node);
      InsertGoesFirst(nodes, order, ids[0], rest, node);
      TiesPush(nodes, order, node, ids[0], rest);
      hide CompareNodes, InsertNode;
    }
  }

  /** No two of the ids compare equal by themselves. */
  ghost predicate Tells(order: Collation, ids: seq<Id>) {
    forall c, d | c in ids && d in ids && c != d :: order(c) != order(d)
  }

  lemma FirstIsBefore(nodes: map<Id, Node>, order: Collation, ids: seq<Id>, c: Id)
    requires c in ids && InOrder(nodes, order, ids) && forall x | x in ids :: x in nodes
    ensures CompareNodes(nodes[ids[0]], nodes[c], order) <= 0
  {
    var j :| 0 <= j < |ids| && ids[j] == c;
  }

  lemma EqualIsSame(nodes: map<Id, Node>, order: Collation, c: Id, d: Id)
    requires c in nodes && d in nodes && nodes[c].entry.id == c && nodes[d].entry.id == d
    requires CompareNodes(nodes[c], nodes[d], order) <= 0 && CompareNodes(nodes[d], nodes[c], order) <= 0
    requires c != d ==> order(c) != order(d)
    ensures c == d
  {}

  lemma SameRest(a: seq<Id>, b: seq<Id>)
    requires a != [] && b != [] && a[0] == b[0] && multiset(a) == multiset(b)
    ensures multiset(a[1..]) == multiset(b[1..])
  {
    assert a == [a[0]] + a[1..] && b == [b[0]] + b[1..];
    assert multiset(a[1..]) == multiset(a) - multiset{a[0]} && multiset(b[1..]) == multiset(b) - multiset{b[0]};
  }

  lemma SameMembers(a: seq<Id>, b: seq<Id>)
    requires multiset(a) == multiset(b)
    ensures |a| == |b| && forall x :: x in a <==> x in b
  {
    assert |a| == |multiset(a)| && |b| == |multiset(b)|;
    assert forall x :: x in a <==> x in multiset(a);
  }

  /** When different ids compare different, there is one way to put siblings in order. */
  lemma {:induction false} OrderIsUnique(nodes: map<Id, Node>, order: Collation, a: seq<Id>, b: seq<Id>)
    requires multiset(a) == multiset(b) && (forall c | c in a :: c in nodes && nodes[c].entry.id == c)
    requires InOrder(nodes, order, a) && InOrder(nodes, order, b) && Tells(order, a)
    ensures a == b
    decreases |a|
  {
    SameMembers(a, b);
    if a != [] {
      FirstIsBefore(nodes, order, a, b[0]);
      FirstIsBefore(nodes, order, b, a[0]);
      EqualIsSame(nodes, order, a[0], b[0]);
      hide CompareNodes;
      SameRest(a, b);
      RestInOrder(nodes, order, a);
      RestInOrder(nodes, order, b);
      hide InOrder, Tells;
      OrderIsUnique(nodes, order, a[1..], b[1..]);
      assert a == [a[0]] + a[1..] && b == [b[0]] + b[1..];
    }
  }

  lemma RestInOrder(nodes: map<Id, Node>, order: Collation, ids: seq<Id>)
    requires ids != [] && InOrder(nodes, order, ids) && forall c | c in ids :: c in nodes
    ensures InOrder(nodes, order, ids[1..])
    ensures Tells(order, ids) ==> Tells(order, ids[1..])
  {
    var rest := ids[1..];
    forall c | c in rest ensures c in ids {
      var i :| 0 <= i < |rest| && rest[i] == c;
      assert ids[i + 1] == c;
    }
    forall i: nat, j: nat | i < j < |rest| ensures CompareNodes(nodes[rest[i]], nodes[rest[j]], order) <= 0 {
      assert rest[i] == ids[i + 1] && rest[j] == ids[j + 1];
    }
  }

  /** What the order is: the newest subtree first; then the entry updated last, the one created last, the one whose id
      comes last. */
  lemma OrderMeans(nodes: map<Id, Node>, order: Collation, ids: seq<Id>)
    requires forall c | c in ids :: c in nodes
    ensures InOrder(nodes, order, ids) <==> forall i: nat, j: nat | i < j < |ids| ::
      var a, b := nodes[ids[i]], nodes[ids[j]];
      && a.latest >= b.latest
      && (a.latest == b.latest ==> a.entry.updatedAt >= b.entry.updatedAt)
      && (a.latest == b.latest && a.entry.updatedAt == b.entry.updatedAt ==> a.entry.createdAt >= b.entry.createdAt)
      && (a.latest == b.latest && a.entry.updatedAt == b.entry.updatedAt && a.entry.createdAt == b.entry.createdAt ==>
            order(a.entry.id) >= order(b.entry.id))
  {}

  // ----- subtrees

  /** The whole table hangs together: each conversation has exactly its children. */
  ghost predicate Shaped(kept: Parents, nodes: map<Id, Node>) {
    && AllEnd(kept) && kept.Keys <= nodes.Keys && kept.Values <= nodes.Keys
    && forall p | p in nodes :: HasChildren(kept, nodes.Keys, p, nodes[p].children)
  }

  ghost function Below(kept: Parents, ids: set<Id>, a: Id): set<Id>
    requires AllEnd(kept)
  {
    set x | x in ids && Above(kept, a, x)
  }

  ghost function BelowAny(kept: Parents, ids: set<Id>, tops: seq<Id>): set<Id>
    requires AllEnd(kept)
  {
    set x | x in ids && exists a | a in tops :: Above(kept, a, x)
  }

  lemma BelowIsTopAndChildren(kept: Parents, nodes: map<Id, Node>, a: Id)
    requires Shaped(kept, nodes) && a in nodes
    ensures Below(kept, nodes.Keys, a) == {a} + BelowAny(kept, nodes.Keys, nodes[a].children)
    ensures a !in BelowAny(kept, nodes.Keys, nodes[a].children)
  {
    assert HasChildren(kept, nodes.Keys, a, nodes[a].children);
    AboveSelf(kept, a);
    forall x | x in Below(kept, nodes.Keys, a) && x != a ensures x in BelowAny(kept, nodes.Keys, nodes[a].children) {
      var c := ChildBetween(kept, a, x);
    }
    forall x, c | c in nodes[a].children && x in nodes && Above(kept, c, x) ensures Above(kept, a, x) && x != a {
      ParentIsAbove(kept, c);
      AboveTransitive(kept, a, c, x);
    }
  }

  lemma ChildrenAreSiblings(kept: Parents, nodes: map<Id, Node>, a: Id, c: Id, d: Id)
    requires Shaped(kept, nodes) && a in nodes && c in nodes[a].children && d in nodes[a].children && c != d
    ensures Siblings(kept, c, d)
  {
    assert HasChildren(kept, nodes.Keys, a, nodes[a].children);
  }

  /** v is the greatest updatedAt in the set. */
  ghost predicate IsMax(nodes: map<Id, Node>, ids: set<Id>, v: int) {
    && (forall x | x in ids && x in nodes :: nodes[x].entry.updatedAt <= v)
    && exists x | x in ids :: x in nodes && nodes[x].entry.updatedAt == v
  }

  /** The node keeps what it was built with, its children in another order only. */
  ghost predicate SameNode(before: Node, after: Node) {
    && after.entry == before.entry && after.link == before.link && after.parent == before.parent
    && multiset(after.children) == multiset(before.children)
  }

  ghost predicate SettledNode(kept: Parents, nodes: map<Id, Node>, x: Id, order: Collation)
    requires AllEnd(kept) && x in nodes
  {
    && InOrder(nodes, order, nodes[x].children)
    && IsMax(nodes, Below(kept, nodes.Keys, x), nodes[x].latest)
  }

  /** Inside the set the node is settled; outside it is as before. */
  ghost predicate UpdatedNode(kept: Parents, before: map<Id, Node>, after: map<Id, Node>, settled: set<Id>, x: Id, order: Collation)
    requires AllEnd(kept) && x in before && x in after
  {
    && SameNode(before[x], after[x])
    && if x in settled then SettledNode(kept, after, x, order) else after[x] == before[x]
  }

  ghost predicate Updated(kept: Parents, before: map<Id, Node>, after: map<Id, Node>, settled: set<Id>, order: Collation)
    requires AllEnd(kept)
  {
    && after.Keys == before.Keys
    && forall x | x in before :: UpdatedNode(kept, before, after, settled, x, order)
  }

  lemma UpdateKeepsShape(kept: Parents, before: map<Id, Node>, after: map<Id, Node>)
    requires Shaped(kept, before) && after.Keys == before.Keys
    requires forall x | x in before :: SameNode(before[x], after[x])
    ensures Shaped(kept, after)
  {
    forall p | p in after ensures HasChildren(kept, after.Keys, p, after[p].children) {
      var a, b := before[p].children, after[p].children;
      assert SameNode(before[p], after[p]) && HasChildren(kept, before.Keys, p, a);
      forall c ensures c in b <==> c in a {
        assert c in b <==> c in multiset(b);
        assert c in a <==> c in multiset(a);
      }
    }
  }

  lemma IsMaxOfSame(before: map<Id, Node>, after: map<Id, Node>, ids: set<Id>, v: int)
    requires after.Keys == before.Keys && forall x | x in before :: after[x].entry == before[x].entry
    ensures IsMax(after, ids, v) <==> IsMax(before, ids, v)
  {}

  lemma IsMaxOfTwo(nodes: map<Id, Node>, a: set<Id>, b: set<Id>, v: int, w: int)
    requires IsMax(nodes, a, v) && IsMax(nodes, b, w)
    ensures IsMax(nodes, a + b, if v >= w then v else w)
  {
    var x :| x in a && x in nodes && nodes[x].entry.updatedAt == v;
    var y :| y in b && y in nodes && nodes[y].entry.updatedAt == w;
    assert x in a + b && y in a + b;
  }

  lemma OrderOfSame(before: map<Id, Node>, after: map<Id, Node>, order: Collation, ids: seq<Id>)
    requires InOrder(before, order, ids)
    requires forall c | c in ids :: c in before && c in after && after[c].entry == before[c].entry && after[c].latest == before[c].latest
    ensures InOrder(after, order, ids)
  {}

  /** A settled node whose children, and itself, are not touched stays settled. */
  lemma StaysSettled(kept: Parents, before: map<Id, Node>, after: map<Id, Node>, x: Id, order: Collation)
    requires Shaped(kept, before) && after.Keys == before.Keys && x in before
    requires forall y | y in before :: SameNode(before[y], after[y])
    requires SettledNode(kept, before, x, order) && after[x] == before[x]
    requires forall c | c in before[x].children :: c in before && after[c] == before[c]
    ensures SettledNode(kept, after, x, order)
  {
    hide InOrder, IsMax, Below, CompareNodes;
    IsMaxOfSame(before, after, Below(kept, before.Keys, x), before[x].latest);
    OrderOfSame(before, after, order, before[x].children);
  }

  lemma ChildIsBelow(kept: Parents, nodes: map<Id, Node>, d: Id, x: Id, k: Id)
    requires Shaped(kept, nodes) && x in nodes && Above(kept, d, x) && k in nodes[x].children
    ensures k in nodes && Above(kept, d, k) && k != d
  {
    assert HasChildren(kept, nodes.Keys, x, nodes[x].children);
    ParentIsAbove(kept, k);
    AboveTransitive(kept, d, x, k);
  }

  lemma SiblingStaysSettled(kept: Parents, before: map<Id, Node>, after: map<Id, Node>, d: Id, c: Id, x: Id, order: Collation)
    requires Shaped(kept, before) && Updated(kept, before, after, Below(kept, before.Keys, c), order)
    requires Siblings(kept, c, d) && x in before && Above(kept, d, x) && SettledNode(kept, before, x, order)
    ensures SettledNode(kept, after, x, order)
  {
    hide Shaped, SettledNode, Above, Siblings;
    ShapedEnds(kept, before);
    SiblingsApart(kept, c, d, x);
    assert UpdatedNode(kept, before, after, Below(kept, before.Keys, c), x, order);
    forall k | k in before[x].children ensures k in before && after[k] == before[k] {
      ChildIsBelow(kept, before, d, x, k);
      SiblingsApart(kept, c, d, k);
      assert UpdatedNode(kept, before, after, Below(kept, before.Keys, c), k, order);
    }
    forall y | y in before ensures SameNode(before[y], after[y]) {
      assert UpdatedNode(kept, before, after, Below(kept, before.Keys, c), y, order);
    }
    StaysSettled(kept, before, after, x, order);
  }

  lemma ShapedEnds(kept: Parents, nodes: map<Id, Node>)
    requires Shaped(kept, nodes)
    ensures AllEnd(kept) && kept.Keys <= nodes.Keys && kept.Values <= nodes.Keys
  {}

  lemma BelowOneMore(kept: Parents, ids: set<Id>, tops: seq<Id>, c: Id)
    requires AllEnd(kept)
    ensures BelowAny(kept, ids, tops + [c]) == BelowAny(kept, ids, tops) + Below(kept, ids, c)
  {
    assert forall a :: a in tops + [c] <==> a in tops || a == c;
  }

  /** Settling the subtree of one more sibling leaves the subtrees already settled alone. */
  lemma SettleSibling(kept: Parents, before: map<Id, Node>, middle: map<Id, Node>, after: map<Id, Node>, tops: seq<Id>, c: Id, order: Collation)
    requires Shaped(kept, before)
    requires Updated(kept, before, middle, BelowAny(kept, before.Keys, tops), order)
    requires c in before && Updated(kept, middle, after, Below(kept, before.Keys, c), order)
    requires forall d | d in tops :: Siblings(kept, c, d)
    ensures Updated(kept, before, after, BelowAny(kept, before.Keys, tops + [c]), order)
  {
    var done, more := BelowAny(kept, before.Keys, tops), Below(kept, before.Keys, c);
    BelowOneMore(kept, before.Keys, tops, c);
    UpdateKeepsShape(kept, before, middle);
    forall x | x in before ensures UpdatedNode(kept, before, after, done + more, x, order) {
      SettleSiblingNode(kept, before, middle, after, tops, c, x, order);
    }
  }

  lemma SettleSiblingNode(kept: Parents, before: map<Id, Node>, middle: map<Id, Node>, after: map<Id, Node>, tops: seq<Id>, c: Id, x: Id, order: Collation)
    requires AllEnd(kept) && Shaped(kept, middle) && middle.Keys == before.Keys && x in before
    requires Updated(kept, before, middle, BelowAny(kept, before.Keys, tops), order)
    requires c in before && Updated(kept, middle, after, Below(kept, before.Keys, c), order)
    requires forall d | d in tops :: Siblings(kept, c, d)
    ensures UpdatedNode(kept, before, after, BelowAny(kept, before.Keys, tops) + Below(kept, before.Keys, c), x, order)
  {
    hide SettledNode, Shaped, Above, Siblings, AllEnd;
    assert UpdatedNode(kept, before, middle, BelowAny(kept, before.Keys, tops), x, order);
    assert UpdatedNode(kept, middle, after, Below(kept, before.Keys, c), x, order);
    if x in BelowAny(kept, before.Keys, tops) {
      var d :| d in tops && Above(kept, d, x);
      SiblingStaysSettled(kept, middle, after, d, c, x, order);
    }
  }

  /** The two field updates that close the visit of a node. */
  function Closed(nodes: map<Id, Node>, id: Id, latest: int, order: Collation): map<Id, Node>
    requires id in nodes && forall c | c in nodes[id].children :: c in nodes
  {
    var timed := nodes[id := nodes[id].(latest := latest)];
    timed[id := timed[id].(children := SortNodes(timed, order, timed[id].children))]
  }

  lemma ClosedTouchesOne(nodes: map<Id, Node>, id: Id, latest: int, order: Collation)
    requires id in nodes && forall c | c in nodes[id].children :: c in nodes
    ensures var after := Closed(nodes, id, latest, order);
      after.Keys == nodes.Keys && forall y | y in nodes :: SameNode(nodes[y], after[y]) && (y != id ==> after[y] == nodes[y])
  {}

  lemma TopIsSettled(kept: Parents, nodes: map<Id, Node>, id: Id, latest: int, order: Collation)
    requires Shaped(kept, nodes) && id in nodes && IsMax(nodes, Below(kept, nodes.Keys, id), latest)
    requires forall c | c in nodes[id].children :: c in nodes
    ensures SettledNode(kept, Closed(nodes, id, latest, order), id, order)
  {
    var timed := nodes[id := nodes[id].(latest := latest)];
    var after := Closed(nodes, id, latest, order);
    SortGivesOrder(timed, order, timed[id].children);
    hide Shaped, InOrder, IsMax, Below, SortNodes;
    ShapedEnds(kept, nodes);
    IsMaxOfSame(nodes, after, Below(kept, nodes.Keys, id), latest);
    OrderOfSame(timed, after, order, after[id].children);
    assert after.Keys == nodes.Keys;
  }

  lemma BelowTopStaysSettled(kept: Parents, nodes: map<Id, Node>, id: Id, x: Id, latest: int, order: Collation)
    requires Shaped(kept, nodes) && id in nodes && x in nodes && x != id && Above(kept, id, x)
    requires forall c | c in nodes[id].children :: c in nodes
    requires SettledNode(kept, nodes, x, order)
    ensures SettledNode(kept, Closed(nodes, id, latest, order), x, order)
  {
    ClosedTouchesOne(nodes, id, latest, order);
    hide Shaped, SettledNode, Above, Closed;
    forall k | k in nodes[x].children ensures k in nodes && k != id {
      ChildIsBelow(kept, nodes, id, x, k);
    }
    StaysSettled(kept, nodes, Closed(nodes, id, latest, order), x, order);
  }

  /** Once every child is settled, setting latest and sorting the children settles the node. */
  lemma SettleTop(kept: Parents, before: map<Id, Node>, middle: map<Id, Node>, id: Id, latest: int, order: Collation)
    requires Shaped(kept, before) && id in before
    requires Updated(kept, before, middle, BelowAny(kept, before.Keys, before[id].children), order)
    requires IsMax(before, Below(kept, before.Keys, id), latest)
    requires forall c | c in middle[id].children :: c in middle
    ensures Updated(kept, before, Closed(middle, id, latest, order), Below(kept, before.Keys, id), order)
  {
    hide Shaped, SettledNode, InOrder, AllEnd, IsMax, BelowAny, Closed;
    ShapedEnds(kept, before);
    var after := Closed(middle, id, latest, order);
    BelowIsTopAndChildren(kept, before, id);
    SameEntries(kept, before, middle, BelowAny(kept, before.Keys, before[id].children), order);
    ClosedTouchesOne(middle, id, latest, order);
    UpdateKeepsShape(kept, before, middle);
    IsMaxOfSame(before, middle, Below(kept, before.Keys, id), latest);
    TopIsSettled(kept, middle, id, latest, order);
    forall x | x in before ensures UpdatedNode(kept, before, after, Below(kept, before.Keys, id), x, order) {
      SettleTopNode(kept, before, middle, id, x, latest, order);
    }
  }

  lemma SettleTopNode(kept: Parents, before: map<Id, Node>, middle: map<Id, Node>, id: Id, x: Id, latest: int, order: Collation)
    requires AllEnd(kept) && Shaped(kept, middle) && id in before && x in before && middle.Keys == before.Keys
    requires Updated(kept, before, middle, BelowAny(kept, before.Keys, before[id].children), order)
    requires Below(kept, before.Keys, id) == {id} + BelowAny(kept, before.Keys, before[id].children)
    requires forall c | c in middle[id].children :: c in middle
    requires SettledNode(kept, Closed(middle, id, latest, order), id, order)
    ensures UpdatedNode(kept, before, Closed(middle, id, latest, order), Below(kept, before.Keys, id), x, order)
  {
    var inner, after := BelowAny(kept, before.Keys, before[id].children), Closed(middle, id, latest, order);
    ClosedTouchesOne(middle, id, latest, order);
    hide SettledNode, Shaped, BelowAny, Closed;
    assert UpdatedNode(kept, before, middle, inner, x, order);
    if x in inner && x != id {
      assert x in Below(kept, before.Keys, id);
      BelowTopStaysSettled(kept, middle, id, x, latest, order);
    }
  }

  lemma BelowNone(kept: Parents, ids: set<Id>)
    requires AllEnd(kept)
    ensures BelowAny(kept, ids, []) == {}
  {}

  lemma BelowPrefix(kept: Parents, ids: set<Id>, tops: seq<Id>, i: nat)
    requires AllEnd(kept) && i < |tops|
    ensures BelowAny(kept, ids, tops[..i + 1]) == BelowAny(kept, ids, tops[..i]) + Below(kept, ids, tops[i])
    ensures BelowAny(kept, ids, tops[..i]) <= BelowAny(kept, ids, tops)
    ensures Below(kept, ids, tops[i]) <= BelowAny(kept, ids, tops)
  {
    assert tops[..i + 1] == tops[..i] + [tops[i]];
    BelowOneMore(kept, ids, tops[..i], tops[i]);
  }

  lemma TopIsBelowItself(kept: Parents, ids: set<Id>, a: Id)
    requires AllEnd(kept) && a in ids
    ensures a in Below(kept, ids, a)
  {
    AboveSelf(kept, a);
  }

  /** Settling the next sibling, with the greatest time seen so far. */
  lemma SettleNext(kept: Parents, before: map<Id, Node>, middle: map<Id, Node>, after: map<Id, Node>, tops: seq<Id>, i: nat, order: Collation)
    requires Shaped(kept, before) && i < |tops| && tops[i] in before
    requires forall d | d in tops[..i] :: Siblings(kept, tops[i], d)
    requires Updated(kept, before, middle, BelowAny(kept, before.Keys, tops[..i]), order)
    requires Updated(kept, middle, after, Below(kept, before.Keys, tops[i]), order)
    ensures Updated(kept, before, after, BelowAny(kept, before.Keys, tops[..i + 1]), order)
    ensures IsMax(before, Below(kept, before.Keys, tops[i]), after[tops[i]].latest)
  {
    hide Siblings, InOrder, IsMax, BelowAny, Below, CompareNodes, Shaped;
    ShapedEnds(kept, before);
    assert tops[..i + 1] == tops[..i] + [tops[i]];
    SettleSibling(kept, before, middle, after, tops[..i], tops[i], order);
    TopIsBelowItself(kept, before.Keys, tops[i]);
    assert UpdatedNode(kept, middle, after, Below(kept, before.Keys, tops[i]), tops[i], order);
    SameEntries(kept, before, after, BelowAny(kept, before.Keys, tops[..i + 1]), order);
    IsMaxOfSame(before, after, Below(kept, before.Keys, tops[i]), after[tops[i]].latest);
  }

  lemma SameEntries(kept: Parents, before: map<Id, Node>, after: map<Id, Node>, settled: set<Id>, order: Collation)
    requires AllEnd(kept) && Updated(kept, before, after, settled, order)
    ensures after.Keys == before.Keys
    ensures forall x | x in before :: SameNode(before[x], after[x])
    ensures forall x | x in before && x !in settled :: after[x] == before[x]
  {
    forall x | x in before ensures SameNode(before[x], after[x]) && (x !in settled ==> after[x] == before[x]) {
      assert UpdatedNode(kept, before, after, settled, x, order);
    }
  }

  lemma ChildFacts(kept: Parents, nodes: map<Id, Node>, id: Id, i: nat)
    requires Shaped(kept, nodes) && id in nodes && i < |nodes[id].children|
    ensures var c := nodes[id].children[i];
      && c in nodes && Below(kept, nodes.Keys, c) < Below(kept, nodes.Keys, id)
      && forall d | d in nodes[id].children[..i] :: Siblings(kept, c, d)
  {
    var children := nodes[id].children;
    assert HasChildren(kept, nodes.Keys, id, children);
    BelowIsTopAndChildren(kept, nodes, id);
    BelowPrefix(kept, nodes.Keys, children, i);
    assert id in Below(kept, nodes.Keys, id) && id !in Below(kept, nodes.Keys, children[i]);
    DistinctPrefix(children, i);
    forall d | d in children[..i] ensures Siblings(kept, children[i], d) {
      ChildrenAreSiblings(kept, nodes, id, children[i], d);
    }
  }

  lemma DistinctPrefix(ids: seq<Id>, i: nat)
    requires Distinct(ids) && i < |ids|
    ensures ids[i] !in ids[..i]
  {
    assert ids == ids[..i] + [ids[i]] + ids[i + 1..];
    assert multiset(ids)[ids[i]] == 1;
  }

  method UpdateSubtreeActivityAndSort(id: Id, nodes: map<Id, Node>, order: Collation, ghost kept: Parents)
    returns (updated: map<Id, Node>, latest: int)
    requires Shaped(kept, nodes) && id in nodes
    ensures Updated(kept, nodes, updated, Below(kept, nodes.Keys, id), order)
    ensures latest == updated[id].latest
    decreases Below(kept, nodes.Keys, id)
  {
    hide Below, BelowAny, Updated, IsMax, Shaped, AllEnd, Siblings, InOrder;
    ShapedEnds(kept, nodes);
    BelowIsTopAndChildren(kept, nodes, id);
    updated := nodes;
    latest := nodes[id].entry.updatedAt;
    var children := nodes[id].children;
    NothingUpdated(kept, nodes, id, order);
    for i := 0 to |children|
      invariant Updated(kept, nodes, updated, BelowAny(kept, nodes.Keys, children[..i]), order)
      invariant IsMax(nodes, {id} + BelowAny(kept, nodes.Keys, children[..i]), latest)
    {
      ghost var middle := updated;
      SameEntries(kept, nodes, updated, BelowAny(kept, nodes.Keys, children[..i]), order);
      UpdateKeepsShape(kept, nodes, updated);
      ChildFacts(kept, nodes, id, i);
      BelowPrefix(kept, nodes.Keys, children, i);
      var childLatest;
      updated, childLatest := UpdateSubtreeActivityAndSort(children[i], updated, order, kept);
      SettleNext(kept, nodes, middle, updated, children, i, order);
      IsMaxOfTwo(nodes, {id} + BelowAny(kept, nodes.Keys, children[..i]), Below(kept, nodes.Keys, children[i]), latest, childLatest);
      assert {id} + BelowAny(kept, nodes.Keys, children[..i]) + Below(kept, nodes.Keys, children[i])
          == {id} + BelowAny(kept, nodes.Keys, children[..i + 1]);
      latest := if latest >= childLatest then latest else childLatest;
    }
    assert children[..|children|] == children;
    SameEntries(kept, nodes, updated, BelowAny(kept, nodes.Keys, children), order);
    UpdateKeepsShape(kept, nodes, updated);
    ChildrenListed(kept, updated, id);
    SettleTop(kept, nodes, updated, id, latest, order);
    updated := updated[id := updated[id].(latest := latest)];
    updated := updated[id := updated[id].(children := SortNodes(updated, order, updated[id].children))];
  }

  lemma NothingUpdated(kept: Parents, nodes: map<Id, Node>, id: Id, order: Collation)
    requires AllEnd(kept) && id in nodes
    ensures Updated(kept, nodes, nodes, BelowAny(kept, nodes.Keys, []), order)
    ensures IsMax(nodes, {id} + BelowAny(kept, nodes.Keys, []), nodes[id].entry.updatedAt)
  {}

  lemma ChildrenListed(kept: Parents, nodes: map<Id, Node>, id: Id)
    requires Shaped(kept, nodes) && id in nodes
    ensures forall c | c in nodes[id].children :: c in nodes
  {
    assert HasChildren(kept, nodes.Keys, id, nodes[id].children);
  }

  // ----- the forest

  ghost function EntriesOf(nodes: map<Id, Node>): map<Id, Entry> {
    map id | id in nodes :: nodes[id].entry
  }

  ghost function LinksOf(nodes: map<Id, Node>): map<Id, OriginLink> {
    map id | id in nodes && nodes[id].link.Some? :: nodes[id].link.value
  }

  ghost function ParentsOf(nodes: map<Id, Node>): Parents {
    map id | id in nodes && nodes[id].parent.Some? :: nodes[id].parent.value
  }

  /** The parents claimed by the links that the nodes carry. */
  ghost function ClaimsOf(nodes: map<Id, Node>): Parents {
    Claims(nodes.Keys, LinksOf(nodes))
  }

  /** Every node carries the link selected for it, if there is one. */
  ghost predicate CarriesLinks(links: seq<OriginLink>, nodes: map<Id, Node>, order: Collation) {
    forall id | id in nodes ::
      if nodes[id].link.Some? then IsEarliest(links, id, nodes[id].link.value, order)
      else forall i | 0 <= i < |links| :: links[i].conversationId != id
  }

  ghost predicate IsForest(forest: Forest, order: Collation) {
    && Shaped(ParentsOf(forest.nodes), forest.nodes)
    && HasRoots(ParentsOf(forest.nodes), forest.nodes.Keys, forest.roots)
    && InOrder(forest.nodes, order, forest.roots)
    && forall id | id in forest.nodes :: SettledNode(ParentsOf(forest.nodes), forest.nodes, id, order)
  }

  lemma {:induction false} RootAbove(kept: Parents, ids: set<Id>, x: Id) returns (r: Id)
    requires AllEnd(kept) && kept.Keys <= ids && kept.Values <= ids && x in ids
    ensures r in ids && r !in kept && Above(kept, r, x)
    decreases |Path(kept, x)|
  {
    PathStep(kept, x);
    if x in kept {
      r := RootAbove(kept, ids, kept[x]);
      assert r in [x] + Path(kept, kept[x]);
    } else {
      AboveSelf(kept, x);
      r := x;
    }
  }

  lemma RootFacts(kept: Parents, nodes: map<Id, Node>, roots: seq<Id>, i: nat)
    requires Shaped(kept, nodes) && HasRoots(kept, nodes.Keys, roots) && i < |roots|
    ensures roots[i] in nodes && forall d | d in roots[..i] :: Siblings(kept, roots[i], d)
  {
    DistinctPrefix(roots, i);
  }

  lemma RootsCoverAll(kept: Parents, ids: set<Id>, roots: seq<Id>)
    requires AllEnd(kept) && kept.Keys <= ids && kept.Values <= ids && HasRoots(kept, ids, roots)
    ensures BelowAny(kept, ids, roots) == ids
  {
    forall x | x in ids ensures x in BelowAny(kept, ids, roots) {
      var r := RootAbove(kept, ids, x);
    }
  }

  /** What the attached table has before its nodes are settled. */
  lemma AttachedIsShaped(byId: map<Id, Entry>, selected: map<Id, OriginLink>, forest: Forest)
    requires var kept := Kept(Claims(byId.Keys, selected)); Attached(byId, selected, kept, byId.Keys, forest)
    ensures var kept := Kept(Claims(byId.Keys, selected));
      Shaped(kept, forest.nodes) && HasRoots(kept, forest.nodes.Keys, forest.roots)
  {
    var kept := Kept(Claims(byId.Keys, selected));
    KeptAllEnd(Claims(byId.Keys, selected));
    forall p | p in forest.nodes ensures HasChildren(kept, forest.nodes.Keys, p, forest.nodes[p].children) {
      assert AttachedNode(byId, selected, kept, byId.Keys, p, forest.nodes[p]);
    }
  }

  /** What was attached can be read back from the nodes, whatever order their children are in. */
  lemma AttachedReadsBack(byId: map<Id, Entry>, selected: map<Id, OriginLink>, before: Forest, nodes: map<Id, Node>)
    requires var kept := Kept(Claims(byId.Keys, selected)); Attached(byId, selected, kept, byId.Keys, before)
    requires nodes.Keys == before.nodes.Keys && forall x | x in nodes :: SameNode(before.nodes[x], nodes[x])
    ensures EntriesOf(nodes) == byId
    ensures forall id | id in nodes :: nodes[id].link == Get(selected, id)
    ensures ClaimsOf(nodes) == Claims(byId.Keys, selected)
    ensures ParentsOf(nodes) == Kept(ClaimsOf(nodes))
  {
    hide Attached, ChainEnds, Kept, Claims, HasClaim, HasRoots, HasChildren, ParentsOf, LinksOf, EntriesOf;
    var kept := Kept(Claims(byId.Keys, selected));
    forall x | x in nodes
      ensures x in byId && nodes[x].entry == byId[x] && nodes[x].link == Get(selected, x) && nodes[x].parent == Get(kept, x)
    {
      AttachedFields(byId, selected, kept, before, x);
    }
    assert nodes.Keys == byId.Keys by { AttachedKeys(byId, selected, kept, before); }
    KeptListed(byId.Keys, selected);
    FieldsReadBack(byId, selected, kept, nodes);
    assert ClaimsOf(nodes) == Claims(nodes.Keys, LinksOf(nodes));
    SameClaims(byId.Keys, selected, LinksOf(nodes));
  }

  lemma KeptListed(ids: set<Id>, selected: map<Id, OriginLink>)
    ensures Kept(Claims(ids, selected)).Keys <= ids
  {}

  lemma AttachedKeys(byId: map<Id, Entry>, selected: map<Id, OriginLink>, kept: Parents, forest: Forest)
    requires Attached(byId, selected, kept, byId.Keys, forest)
    ensures forest.nodes.Keys == byId.Keys
  {}

  lemma AttachedFields(byId: map<Id, Entry>, selected: map<Id, OriginLink>, kept: Parents, forest: Forest, x: Id)
    requires Attached(byId, selected, kept, byId.Keys, forest) && x in forest.nodes
    ensures var node := forest.nodes[x];
      x in byId && node.entry == byId[x] && node.link == Get(selected, x) && node.parent == Get(kept, x)
  {
    assert AttachedNode(byId, selected, kept, byId.Keys, x, forest.nodes[x]);
  }

  lemma FieldsReadBack(byId: map<Id, Entry>, selected: map<Id, OriginLink>, kept: Parents, nodes: map<Id, Node>)
    requires nodes.Keys == byId.Keys && kept.Keys <= nodes.Keys
    requires forall x | x in nodes :: nodes[x].entry == byId[x] && nodes[x].link == Get(selected, x) && nodes[x].parent == Get(kept, x)
    ensures EntriesOf(nodes) == byId && ParentsOf(nodes) == kept
    ensures forall x | x in nodes :: Get(LinksOf(nodes), x) == Get(selected, x)
  {}

  lemma SameClaims(ids: set<Id>, selected: map<Id, OriginLink>, carried: map<Id, OriginLink>)
    requires forall id | id in ids :: Get(carried, id) == Get(selected, id)
    ensures Claims(ids, carried) == Claims(ids, selected)
  {
    forall id | id in ids ensures HasClaim(ids, carried, id) <==> HasClaim(ids, selected, id) {
      assert Get(carried, id) == Get(selected, id);
    }
  }

  method BuildConversationHistoryForest(entries: seq<Entry>, originLinks: seq<OriginLink>, linkOrder: Collation, entryOrder: Collation)
    returns (forest: Forest)
    ensures IsEntryTable(entries, EntriesOf(forest.nodes))
    ensures CarriesLinks(originLinks, forest.nodes, linkOrder)
    ensures ParentsOf(forest.nodes) == Kept(ClaimsOf(forest.nodes))
    ensures IsForest(forest, entryOrder)
  {
    var byId := IndexEntries(entries);
    var selected := SelectConversationOriginLinks(originLinks, linkOrder);
    var parents, cyclic := ResolveParents(byId, selected);
    var nodes, roots := AttachNodes(byId, selected, parents, cyclic);
    ghost var before, kept := Forest(nodes, roots), Kept(parents);
    AttachedIsShaped(byId, selected, before);
    hide Shaped, AllEnd, Attached, HasRoots, Kept, Claims, ClaimsOf, ParentsOf, EntriesOf, BelowAny, Updated, InOrder, Siblings, SettledNode;
    ShapedEnds(kept, nodes);
    BelowNone(kept, nodes.Keys);
    NothingUpdatedYet(kept, nodes, entryOrder);
    for i := 0 to |roots|
      invariant Updated(kept, before.nodes, nodes, BelowAny(kept, before.nodes.Keys, roots[..i]), entryOrder)
    {
      ghost var middle := nodes;
      RootFacts(kept, before.nodes, roots, i);
      SameEntries(kept, before.nodes, nodes, BelowAny(kept, before.nodes.Keys, roots[..i]), entryOrder);
      UpdateKeepsShape(kept, before.nodes, nodes);
      var latest;
      nodes, latest := UpdateSubtreeActivityAndSort(roots[i], nodes, entryOrder, kept);
      SettleNext(kept, before.nodes, middle, nodes, roots, i, entryOrder);
    }
    assert roots[..|roots|] == roots;
    SameEntries(kept, before.nodes, nodes, BelowAny(kept, before.nodes.Keys, roots), entryOrder);
    UpdateKeepsShape(kept, before.nodes, nodes);
    AttachedReadsBack(byId, selected, before, nodes);
    AllSettled(kept, before, nodes, entryOrder);
    RootsListed(kept, nodes, roots);
    SortGivesOrder(nodes, entryOrder, roots);
    forest := Forest(nodes, SortNodes(nodes, entryOrder, roots));
    SelectionIsCarried(originLinks, selected, nodes, linkOrder);
    ForestIsDone(kept, nodes, roots, forest.roots, entryOrder);
  }

  lemma NothingUpdatedYet(kept: Parents, nodes: map<Id, Node>, order: Collation)
    requires AllEnd(kept)
    ensures Updated(kept, nodes, nodes, {}, order)
  {}

  lemma AllSettled(kept: Parents, before: Forest, nodes: map<Id, Node>, order: Collation)
    requires Shaped(kept, before.nodes) && HasRoots(kept, before.nodes.Keys, before.roots)
    requires Updated(kept, before.nodes, nodes, BelowAny(kept, before.nodes.Keys, before.roots), order)
    ensures forall id | id in nodes :: SettledNode(kept, nodes, id, order)
  {
    RootsCoverAll(kept, before.nodes.Keys, before.roots);
    forall id | id in nodes ensures SettledNode(kept, nodes, id, order) {
      assert UpdatedNode(kept, before.nodes, nodes, before.nodes.Keys, id, order);
    }
  }

  lemma RootsListed(kept: Parents, nodes: map<Id, Node>, roots: seq<Id>)
    requires HasRoots(kept, nodes.Keys, roots)
    ensures forall c | c in roots :: c in nodes
  {}

  lemma SelectionIsCarried(links: seq<OriginLink>, selected: map<Id, OriginLink>, nodes: map<Id, Node>, order: Collation)
    requires IsSelection(links, selected, order) && "" !in nodes
    requires forall id | id in nodes :: nodes[id].link == Get(selected, id)
    ensures CarriesLinks(links, nodes, order)
  {}

  lemma ForestIsDone(kept: Parents, nodes: map<Id, Node>, attached: seq<Id>, roots: seq<Id>, order: Collation)
    requires kept == ParentsOf(nodes) && Shaped(kept, nodes) && HasRoots(kept, nodes.Keys, attached)
    requires forall id | id in nodes :: SettledNode(kept, nodes, id, order)
    requires multiset(roots) == multiset(attached) && (forall c :: c in roots <==> c in attached) && InOrder(nodes, order, roots)
    ensures IsForest(Forest(nodes, roots), order)
  {
    hide Shaped, SettledNode, InOrder, ParentsOf;
    assert HasRoots(kept, nodes.Keys, roots);
  }
}