/** The forest as one flat list, and the list cut into pages
    (shared/conversationHistoryTree.ts, lines 93-131). */
module HistoryPages {
  import opened Options
  import opened ParentChains
  import opened HistoryForest

  // ----- flattening

  /** The conversation, then the subtrees of its children in their order. */
  ghost function Flatten(nodes: map<Id, Node>, kept: Parents, id: Id): seq<Id>
    requires Shaped(kept, nodes) && id in nodes
    decreases Below(kept, nodes.Keys, id), 0
  {
    BelowIsTopAndChildren(kept, nodes, id);
    ChildrenListed(kept, nodes, id);
    [id] + FlattenAll(nodes, kept, nodes[id].children)
  }

  ghost function FlattenAll(nodes: map<Id, Node>, kept: Parents, ids: seq<Id>): seq<Id>
    requires Shaped(kept, nodes) && forall c | c in ids :: c in nodes
    decreases BelowAny(kept, nodes.Keys, ids), |ids|
  {
    if ids == [] then []
    else
      BelowFirst(kept, nodes.Keys, ids);
      Flatten(nodes, kept, ids[0]) + FlattenAll(nodes, kept, ids[1..])
  }

  lemma BelowFirst(kept: Parents, ids: set<Id>, tops: seq<Id>)
    requires AllEnd(kept) && tops != []
    ensures BelowAny(kept, ids, tops) == Below(kept, ids, tops[0]) + BelowAny(kept, ids, tops[1..])
  {
    assert forall a :: a in tops <==> a == tops[0] || a in tops[1..];
  }

  /** No conversation stands before one of its ancestors. */
  ghost predicate AncestorsFirst(kept: Parents, list: seq<Id>)
    requires AllEnd(kept)
  {
    forall i: nat, j: nat | i < |list| && j < |list| && Above(kept, list[i], list[j]) :: i <= j
  }

  /** The list holds exactly these conversations, each once, ancestors first. */
  ghost predicate Lists(kept: Parents, list: seq<Id>, ids: set<Id>)
    requires AllEnd(kept)
  {
    Distinct(list) && (forall x :: x in list <==> x in ids) && AncestorsFirst(kept, list)
  }

  ghost predicate AllSiblings(kept: Parents, ids: seq<Id>) {
    forall i: nat, j: nat | i < j < |ids| :: Siblings(kept, ids[i], ids[j])
  }

  lemma JoinLists(kept: Parents, a: seq<Id>, b: seq<Id>, s: set<Id>, t: set<Id>)
    requires AllEnd(kept) && Lists(kept, a, s) && Lists(kept, b, t)
    requires s !! t && forall x, y | x in s && y in t :: !Above(kept, y, x)
    ensures Lists(kept, a + b, s + t)
  {
    forall x | x in a + b ensures multiset(a + b)[x] == 1 {
      assert x in multiset(a) <==> x in a;
      assert x in multiset(b) <==> x in b;
    }
    var list := a + b;
    forall i: nat, j: nat | i < |list| && j < |list| && Above(kept, list[i], list[j]) ensures i <= j {
      assert list[i] == if i < |a| then a[i] else b[i - |a|];
      assert list[j] == if j < |a| then a[j] else b[j - |a|];
    }
  }

  lemma SiblingSubtreesApart(kept: Parents, ids: set<Id>, tops: seq<Id>)
    requires AllEnd(kept) && tops != [] && AllSiblings(kept, tops)
    ensures Below(kept, ids, tops[0]) !! BelowAny(kept, ids, tops[1..])
    ensures forall x, y | x in Below(kept, ids, tops[0]) && y in BelowAny(kept, ids, tops[1..]) :: !Above(kept, y, x)
  {
    forall x, y | x in Below(kept, ids, tops[0]) && y in BelowAny(kept, ids, tops[1..])
      ensures x != y && !Above(kept, y, x)
    {
      var d :| d in tops[1..] && Above(kept, d, y);
      var j :| 0 <= j < |tops| - 1 && tops[1..][j] == d;
      assert Siblings(kept, tops[0], tops[j + 1]);
      SiblingsApart(kept, tops[0], d, x);
      if Above(kept, y, x) { AboveTransitive(kept, d, y, x); }
    }
  }

  lemma {:induction false} FlattenLists(nodes: map<Id, Node>, kept: Parents, id: Id)
    requires Shaped(kept, nodes) && id in nodes
    ensures Lists(kept, Flatten(nodes, kept, id), Below(kept, nodes.Keys, id))
    decreases Below(kept, nodes.Keys, id), 0
  {
    BelowIsTopAndChildren(kept, nodes, id);
    ChildrenListed(kept, nodes, id);
    ChildrenAllSiblings(nodes, kept, id);
    FlattenAllLists(nodes, kept, nodes[id].children);
    OneLists(kept, id);
    forall y | y in BelowAny(kept, nodes.Keys, nodes[id].children) ensures !Above(kept, y, id) {
      var c :| c in nodes[id].children && Above(kept, c, y);
      if Above(kept, y, id) { TopOverChild(kept, nodes, id, c, y); }
    }
    JoinLists(kept, [id], FlattenAll(nodes, kept, nodes[id].children), {id}, BelowAny(kept, nodes.Keys, nodes[id].children));
  }

  lemma OneLists(kept: Parents, id: Id)
    requires AllEnd(kept)
    ensures Lists(kept, [id], {id})
  {}

  lemma TopOverChild(kept: Parents, nodes: map<Id, Node>, id: Id, c: Id, y: Id)
    requires Shaped(kept, nodes) && id in nodes && c in nodes[id].children
    ensures !(Above(kept, c, y) && Above(kept, y, id))
  {
    assert HasChildren(kept, nodes.Keys, id, nodes[id].children);
    ParentIsAbove(kept, c);
    if Above(kept, c, y) && Above(kept, y, id) { AboveTransitive(kept, c, y, id); }
  }

  lemma ChildrenAllSiblings(nodes: map<Id, Node>, kept: Parents, id: Id)
    requires Shaped(kept, nodes) && id in nodes
    ensures AllSiblings(kept, nodes[id].children)
  {
    var ids := nodes[id].children;
    assert HasChildren(kept, nodes.Keys, id, ids);
    forall i: nat, j: nat | i < j < |ids| ensures Siblings(kept, ids[i], ids[j]) {
      DistinctPrefix(ids, j);
      assert ids[i] in ids[..j];
      ChildrenAreSiblings(kept, nodes, id, ids[i], ids[j]);
    }
  }

  lemma {:induction false} FlattenAllLists(nodes: map<Id, Node>, kept: Parents, ids: seq<Id>)
    requires Shaped(kept, nodes) && (forall c | c in ids :: c in nodes) && AllSiblings(kept, ids)
    ensures Lists(kept, FlattenAll(nodes, kept, ids), BelowAny(kept, nodes.Keys, ids))
    decreases BelowAny(kept, nodes.Keys, ids), |ids|
  {
    if ids != [] {
      BelowFirst(kept, nodes.Keys, ids);
      FlattenLists(nodes, kept, ids[0]);
      FlattenAllLists(nodes, kept, ids[1..]);
      SiblingSubtreesApart(kept, nodes.Keys, ids);
      JoinLists(kept, Flatten(nodes, kept, ids[0]), FlattenAll(nodes, kept, ids[1..]),
                Below(kept, nodes.Keys, ids[0]), BelowAny(kept, nodes.Keys, ids[1..]));
    }
  }

  /** Flattening a forest lists every conversation exactly once, every ancestor before its descendants. */
  lemma ForestIsConserved(forest: Forest, order: Collation)
    requires IsForest(forest, order)
    ensures forall c | c in forest.roots :: c in forest.nodes
    ensures var kept := ParentsOf(forest.nodes);
      Lists(kept, FlattenAll(forest.nodes, kept, forest.roots), forest.nodes.Keys)
  {
    var kept, roots := ParentsOf(forest.nodes), forest.roots;
    hide Shaped, SettledNode, InOrder, AllEnd, HasRoots, FlattenAll, BelowAny, ParentsOf;
    ShapedEnds(kept, forest.nodes);
    RootsListed(kept, forest.nodes, roots);
    forall i: nat, j: nat | i < j < |roots| ensures Siblings(kept, roots[i], roots[j]) {
      RootFacts(kept, forest.nodes, roots, j);
      assert roots[i] in roots[..j];
    }
    RootsCoverAll(kept, forest.nodes.Keys, roots);
    FlattenAllLists(forest.nodes, kept, roots);
  }

  // ----- the flat list, built by pushing

  method Append(id: Id, nodes: map<Id, Node>, ghost kept: Parents, result: seq<Id>) returns (longer: seq<Id>)
    requires Shaped(kept, nodes) && id in nodes
    ensures longer == result + Flatten(nodes, kept, id)
    decreases Below(kept, nodes.Keys, id)
  {
    hide Shaped, FlattenAll, Flatten, Below, AllEnd;
    longer := result + [id];
    var children := nodes[id].children;
    FlattenNone(nodes, kept);
    ChildrenListed(kept, nodes, id);
    for i := 0 to |children|
      invariant longer == result + [id] + FlattenAll(nodes, kept, children[..i])
    {
      ChildFacts(kept, nodes, id, i);
      longer := Append(children[i], nodes, kept, longer);
      FlattenOneMore(nodes, kept, children, i);
      Regroup(result + [id], FlattenAll(nodes, kept, children[..i]), Flatten(nodes, kept, children[i]));
    }
    assert children[..|children|] == children;
    FlattenNode(nodes, kept, id);
    Regroup(result, [id], FlattenAll(nodes, kept, children));
  }

  lemma FlattenNode(nodes: map<Id, Node>, kept: Parents, id: Id)
    requires Shaped(kept, nodes) && id in nodes && forall c | c in nodes[id].children :: c in nodes
    ensures Flatten(nodes, kept, id) == [id] + FlattenAll(nodes, kept, nodes[id].children)
  {}

  lemma {:induction false} FlattenJoin(nodes: map<Id, Node>, kept: Parents, a: seq<Id>, b: seq<Id>)
    requires Shaped(kept, nodes) && (forall c | c in a :: c in nodes) && (forall c | c in b :: c in nodes)
    ensures FlattenAll(nodes, kept, a + b) == FlattenAll(nodes, kept, a) + FlattenAll(nodes, kept, b)
  {
    if a == [] {
      assert a + b == b;
    } else {
      hide Shaped, Flatten, FlattenAll;
      FlattenJoin(nodes, kept, a[1..], b);
      assert a + b == [a[0]] + (a[1..] + b) && a == [a[0]] + a[1..];
      FlattenCons(nodes, kept, a[0], a[1..] + b);
      FlattenCons(nodes, kept, a[0], a[1..]);
      Regroup(Flatten(nodes, kept, a[0]), FlattenAll(nodes, kept, a[1..]), FlattenAll(nodes, kept, b));
    }
  }

  lemma FlattenCons(nodes: map<Id, Node>, kept: Parents, id: Id, ids: seq<Id>)
    requires Shaped(kept, nodes) && id in nodes && forall c | c in ids :: c in nodes
    ensures FlattenAll(nodes, kept, [id] + ids) == Flatten(nodes, kept, id) + FlattenAll(nodes, kept, ids)
  {
    hide Shaped, Flatten;
    assert ([id] + ids)[1..] == ids;
  }

  lemma FlattenOneMore(nodes: map<Id, Node>, kept: Parents, ids: seq<Id>, i: nat)
    requires Shaped(kept, nodes) && (forall c | c in ids :: c in nodes) && i < |ids|
    ensures FlattenAll(nodes, kept, ids[..i + 1]) == FlattenAll(nodes, kept, ids[..i]) + Flatten(nodes, kept, ids[i])
  {
    assert ids[..i + 1] == ids[..i] + [ids[i]];
    FlattenJoin(nodes, kept, ids[..i], [ids[i]]);
    FlattenSingle(nodes, kept, ids[i]);
  }

  lemma FlattenNone(nodes: map<Id, Node>, kept: Parents)
    requires Shaped(kept, nodes)
    ensures FlattenAll(nodes, kept, []) == []
  {}

  lemma FlattenSingle(nodes: map<Id, Node>, kept: Parents, id: Id)
    requires Shaped(kept, nodes) && id in nodes
    ensures FlattenAll(nodes, kept, [id]) == Flatten(nodes, kept, id) != []
  {
    assert [id][1..] == [];
  }

  method FlattenConversationHistoryForest(nodes: map<Id, Node>, roots: seq<Id>, ghost kept: Parents) returns (result: seq<Id>)
    requires Shaped(kept, nodes) && forall c | c in roots :: c in nodes
    ensures result == FlattenAll(nodes, kept, roots)
  {
    result := [];
    for i := 0 to |roots|
      invariant result == FlattenAll(nodes, kept, roots[..i])
    {
      result := Append(roots[i], nodes, kept, result);
      FlattenOneMore(nodes, kept, roots, i);
    }
    assert roots[..|roots|] == roots;
  }

  // ----- pages

  ghost function Concat(parts: seq<seq<Id>>): seq<Id> {
    if parts == [] then [] else Concat(parts[..|parts| - 1]) + parts[|parts| - 1]
  }

  lemma ConcatPush(parts: seq<seq<Id>>, part: seq<Id>)
    ensures Concat(parts + [part]) == Concat(parts) + part
  {
    assert (parts + [part])[..|parts|] == parts;
  }

  /** None stands for a page size that is not a finite number. */
  function NormalizedPageSize(pageSize: Option<real>): (size: int)
    ensures size >= 1
  {
    if pageSize.Some? && pageSize.value.Floor > 1 then pageSize.value.Floor else 1
  }

  /** A page closed before this tree: it was full, or the tree would have made it too long. */
  ghost predicate ClosedBefore(nodes: map<Id, Node>, kept: Parents, size: int, page: seq<Id>, root: Id)
    requires Shaped(kept, nodes)
  {
    |page| >= size || (root in nodes && |page| + |Flatten(nodes, kept, root)| > size)
  }

  /** A page holds the whole trees of a non-empty run of roots, and is too long only when it is one tree. */
  ghost predicate IsPage(nodes: map<Id, Node>, kept: Parents, size: int, page: seq<Id>, group: seq<Id>)
    requires Shaped(kept, nodes)
  {
    && group != [] && (forall c | c in group :: c in nodes)
    && page == FlattenAll(nodes, kept, group)
    && (|group| > 1 ==> |page| <= size)
  }

  /** The groups are consecutive, each page is as long as it can be, and nothing is lost. */
  ghost predicate Paged(nodes: map<Id, Node>, kept: Parents, size: int, pages: seq<seq<Id>>, groups: seq<seq<Id>>)
    requires Shaped(kept, nodes)
  {
    && |pages| == |groups|
    && (forall i | 0 <= i < |pages| :: IsPage(nodes, kept, size, pages[i], groups[i]))
    && (forall i: nat, j: nat | j == i + 1 < |pages| :: ClosedBefore(nodes, kept, size, pages[i], groups[j][0]))
  }

  lemma PageGrows(nodes: map<Id, Node>, kept: Parents, size: int, page: seq<Id>, group: seq<Id>, root: Id)
    requires Shaped(kept, nodes) && root in nodes
    requires if group == [] then page == [] else IsPage(nodes, kept, size, page, group)
    requires group == [] || |page| + |Flatten(nodes, kept, root)| <= size
    ensures IsPage(nodes, kept, size, page + Flatten(nodes, kept, root), group + [root])
  {
    var ids := group + [root];
    assert ids[..|group|] == group && ids[..|ids|] == ids;
    FlattenOneMore(nodes, kept, ids, |group|);
  }

  /** The state before roots[i] is taken: the closed pages and the open one hold the first i trees. */
  ghost predicate Packing(nodes: map<Id, Node>, kept: Parents, size: int, roots: seq<Id>, i: nat,
                          pages: seq<seq<Id>>, groups: seq<seq<Id>>, page: seq<Id>, group: seq<Id>)
    requires Shaped(kept, nodes) && i <= |roots| && forall c | c in roots :: c in nodes
  {
    && Paged(nodes, kept, size, pages, groups)
    && Concat(groups) + group == roots[..i] && Concat(pages) + page == FlattenAll(nodes, kept, roots[..i])
    && (if group == [] then page == [] else page != [] && IsPage(nodes, kept, size, page, group))
    && (pages != [] && group != [] ==> ClosedBefore(nodes, kept, size, pages[|pages| - 1], group[0]))
    && (pages != [] && group == [] && i < |roots| ==> ClosedBefore(nodes, kept, size, pages[|pages| - 1], roots[i]))
  }

  lemma PackFlush(nodes: map<Id, Node>, kept: Parents, size: int, roots: seq<Id>, i: nat,
                  pages: seq<seq<Id>>, groups: seq<seq<Id>>, page: seq<Id>, group: seq<Id>)
    requires Shaped(kept, nodes) && i <= |roots| && forall c | c in roots :: c in nodes
    requires Packing(nodes, kept, size, roots, i, pages, groups, page, group) && page != []
    requires i < |roots| ==> ClosedBefore(nodes, kept, size, page, roots[i])
    ensures Packing(nodes, kept, size, roots, i, pages + [page], groups + [group], [], [])
  {
    ConcatPush(groups, group);
    ConcatPush(pages, page);
    hide Shaped, FlattenAll, ClosedBefore, IsPage;
  }

  lemma PackTake(nodes: map<Id, Node>, kept: Parents, size: int, roots: seq<Id>, i: nat,
                 pages: seq<seq<Id>>, groups: seq<seq<Id>>, page: seq<Id>, group: seq<Id>)
    requires Shaped(kept, nodes) && i < |roots| && forall c | c in roots :: c in nodes
    requires Packing(nodes, kept, size, roots, i, pages, groups, page, group)
    requires page == [] || |page| + |Flatten(nodes, kept, roots[i])| <= size
    ensures Packing(nodes, kept, size, roots, i + 1, pages, groups, page + Flatten(nodes, kept, roots[i]), group + [roots[i]])
  {
    PageGrows(nodes, kept, size, page, group, roots[i]);
    FlattenOneMore(nodes, kept, roots, i);
    FlattenSingle(nodes, kept, roots[i]);
    hide Shaped, Flatten, FlattenAll, ClosedBefore, IsPage, Concat, Paged;
    OneMore(roots, i);
    Regroup(Concat(groups), group, [roots[i]]);
    Regroup(Concat(pages), page, Flatten(nodes, kept, roots[i]));
  }

  lemma OneMore(ids: seq<Id>, i: nat)
    requires i < |ids|
    ensures ids[..i + 1] == ids[..i] + [ids[i]]
  {}

  lemma Regroup(a: seq<Id>, b: seq<Id>, c: seq<Id>)
    ensures a + (b + c) == (a + b) + c
  {}

  method PackConversationHistoryForestIntoPages(nodes: map<Id, Node>, roots: seq<Id>, pageSize: Option<real>, ghost kept: Parents)
    returns (pages: seq<seq<Id>>, ghost groups: seq<seq<Id>>)
    requires Shaped(kept, nodes) && forall c | c in roots :: c in nodes
    ensures Concat(pages) == FlattenAll(nodes, kept, roots)
    ensures Concat(groups) == roots && Paged(nodes, kept, NormalizedPageSize(pageSize), pages, groups)
  {
    hide Packing, Shaped, FlattenAll, Flatten;
    var size := NormalizedPageSize(pageSize);
    pages, groups := [], [];
    var currentPage := [];
    ghost var group := [];
    PackNothing(nodes, kept, size, roots);
    for i := 0 to |roots|
      invariant Packing(nodes, kept, size, roots, i, pages, groups, currentPage, group)
    {
      var tree := FlattenConversationHistoryForest(nodes, [roots[i]], kept);
      FlattenSingle(nodes, kept, roots[i]);
      if currentPage != [] && |currentPage| + |tree| > size {
        PackFlush(nodes, kept, size, roots, i, pages, groups, currentPage, group);
        pages, groups := pages + [currentPage], groups + [group];
        currentPage, group := [], [];
      }
      PackTake(nodes, kept, size, roots, i, pages, groups, currentPage, group);
      currentPage, group := currentPage + tree, group + [roots[i]];
      if |currentPage| >= size {
        PackFlush(nodes, kept, size, roots, i + 1, pages, groups, currentPage, group);
        pages, groups := pages + [currentPage], groups + [group];
        currentPage, group := [], [];
      }
    }
    if currentPage != [] {
      PackFlush(nodes, kept, size, roots, |roots|, pages, groups, currentPage, group);
      pages, groups := pages + [currentPage], groups + [group];
      currentPage, group := [], [];
    }
    PackEnd(nodes, kept, size, roots, pages, groups, currentPage, group);
  }

  lemma PackNothing(nodes: map<Id, Node>, kept: Parents, size: int, roots: seq<Id>)
    requires Shaped(kept, nodes) && forall c | c in roots :: c in nodes
    ensures Packing(nodes, kept, size, roots, 0, [], [], [], [])
  {}

  lemma PackEnd(nodes: map<Id, Node>, kept: Parents, size: int, roots: seq<Id>, pages: seq<seq<Id>>, groups: seq<seq<Id>>, page: seq<Id>, group: seq<Id>)
    requires Shaped(kept, nodes) && forall c | c in roots :: c in nodes
    requires Packing(nodes, kept, size, roots, |roots|, pages, groups, page, group) && page == []
    ensures Concat(pages) == FlattenAll(nodes, kept, roots)
    ensures Concat(groups) == roots && Paged(nodes, kept, size, pages, groups)
  {
    assert roots[..|roots|] == roots;
  }
}
