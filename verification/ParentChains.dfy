/** Chains of parents in a parent map that may hold cycles, and the walk that finds out whether a chain
    runs into one (shared/conversationHistoryTree.ts, lines 169-181). */
module ParentChains {
  import opened Options

  type Id = string
  type Parents = map<Id, Id>

  function Get<V>(m: map<Id, V>, key: Id): Option<V> {
    if key in m then Some(m[key]) else None
  }

  // ----- parent chains

  /** The chain of parents that starts at id comes to a root within n steps. */
  ghost predicate EndsWithin(parents: Parents, id: Id, n: nat)
    decreases n
  {
    id !in parents || (n > 0 && EndsWithin(parents, parents[id], n - 1))
  }

  ghost predicate ChainEnds(parents: Parents, id: Id) {
    exists n: nat :: EndsWithin(parents, id, n)
  }

  ghost predicate AllEnd(parents: Parents) {
    forall id :: ChainEnds(parents, id)
  }

  ghost function PathWithin(parents: Parents, id: Id, n: nat): (path: seq<Id>)
    requires EndsWithin(parents, id, n)
    decreases n
  {
    if id in parents then [id] + PathWithin(parents, parents[id], n - 1) else [id]
  }

  /** The conversation itself, then its parent, and so on up to a root. */
  ghost function Path(parents: Parents, id: Id): seq<Id>
    requires ChainEnds(parents, id)
  {
    var n: nat :| EndsWithin(parents, id, n);
    PathWithin(parents, id, n)
  }

  lemma {:induction false} PathIsOne(parents: Parents, id: Id, n: nat, m: nat)
    requires EndsWithin(parents, id, n) && EndsWithin(parents, id, m)
    ensures PathWithin(parents, id, n) == PathWithin(parents, id, m)
    decreases n
  {
    if id in parents { PathIsOne(parents, parents[id], n - 1, m - 1); }
  }

  lemma PathIs(parents: Parents, id: Id, n: nat)
    requires EndsWithin(parents, id, n)
    ensures Path(parents, id) == PathWithin(parents, id, n)
  {
    forall m: nat | EndsWithin(parents, id, m) ensures PathWithin(parents, id, m) == PathWithin(parents, id, n) {
      PathIsOne(parents, id, m, n);
    }
  }

  lemma PathStep(parents: Parents, id: Id)
    requires AllEnd(parents)
    ensures Path(parents, id) == if id in parents then [id] + Path(parents, parents[id]) else [id]
  {
    assert ChainEnds(parents, id);
    var n: nat :| EndsWithin(parents, id, n);
    PathIs(parents, id, n);
    if id in parents {
      PathIs(parents, parents[id], n - 1);
    }
  }

  /** Each place of a path starts the path of the conversation found there. */
  lemma {:induction false} PathSuffix(parents: Parents, id: Id, i: nat)
    requires AllEnd(parents) && i < |Path(parents, id)|
    ensures Path(parents, id)[i..] == Path(parents, Path(parents, id)[i])
    decreases i
  {
    PathStep(parents, id);
    var path := Path(parents, id);
    if i == 0 {
      assert path[0..] == path;
    } else {
      PathSuffix(parents, parents[id], i - 1);
      assert path[i..] == Path(parents, parents[id])[i - 1..];
    }
  }

  /** a is the conversation x or one of its ancestors. */
  ghost predicate Above(parents: Parents, a: Id, x: Id)
    requires AllEnd(parents)
  {
    a in Path(parents, x)
  }

  lemma AboveSelf(parents: Parents, x: Id)
    requires AllEnd(parents)
    ensures Above(parents, x, x)
  {
    PathStep(parents, x);
    assert Path(parents, x)[0] == x;
  }

  lemma AboveTransitive(parents: Parents, a: Id, b: Id, x: Id)
    requires AllEnd(parents) && Above(parents, a, b) && Above(parents, b, x)
    ensures Above(parents, a, x)
  {
    var i :| 0 <= i < |Path(parents, x)| && Path(parents, x)[i] == b;
    PathSuffix(parents, x, i);
    assert a in Path(parents, x)[i..];
  }

  /** The parent is above its child, and no child is above its parent. */
  lemma ParentIsAbove(parents: Parents, c: Id)
    requires AllEnd(parents) && c in parents
    ensures Above(parents, parents[c], c) && !Above(parents, c, parents[c])
  {
    PathStep(parents, c);
    AboveSelf(parents, parents[c]);
    assert parents[c] in [c] + Path(parents, parents[c]);
    if Above(parents, c, parents[c]) {
      var i :| 0 <= i < |Path(parents, parents[c])| && Path(parents, parents[c])[i] == c;
      PathSuffix(parents, parents[c], i);
    }
  }

  /** Between an ancestor and a conversation below it stands one child of the ancestor. */
  lemma {:induction false} ChildBetween(parents: Parents, a: Id, x: Id) returns (c: Id)
    requires AllEnd(parents) && Above(parents, a, x) && a != x
    ensures c in parents && parents[c] == a && Above(parents, c, x)
    decreases |Path(parents, x)|
  {
    PathStep(parents, x);
    if parents[x] == a {
      AboveSelf(parents, x);
      c := x;
    } else {
      c := ChildBetween(parents, a, parents[x]);
      assert c in [x] + Path(parents, parents[x]);
    }
  }

  /** Two conversations above a third one are above one another. */
  lemma AboveIsLinear(parents: Parents, a: Id, b: Id, x: Id)
    requires AllEnd(parents) && Above(parents, a, x) && Above(parents, b, x)
    ensures Above(parents, a, b) || Above(parents, b, a)
  {
    var path := Path(parents, x);
    var i :| 0 <= i < |path| && path[i] == a;
    var j :| 0 <= j < |path| && path[j] == b;
    PathSuffix(parents, x, i);
    PathSuffix(parents, x, j);
    if i <= j {
      assert path[i..][j - i] == b;
    } else {
      assert path[j..][i - j] == a;
    }
  }

  /** Neither of the two is above the other: two children of one parent, or two roots. */
  ghost predicate Siblings(parents: Parents, c: Id, d: Id) {
    c != d && (if c in parents then d in parents && parents[c] == parents[d] else d !in parents)
  }

  lemma SiblingsApart(parents: Parents, c: Id, d: Id, x: Id)
    requires AllEnd(parents) && Siblings(parents, c, d)
    ensures !(Above(parents, c, x) && Above(parents, d, x))
  {
    if Above(parents, c, x) && Above(parents, d, x) {
      AboveIsLinear(parents, c, d, x);
      PathStep(parents, c);
      PathStep(parents, d);
      if c in parents {
        ParentIsAbove(parents, c);
        ParentIsAbove(parents, d);
      }
    }
  }

  // ----- the cycle test

  /** Each conversation on the walk claims the next one. */
  ghost predicate Walk(parents: Parents, walk: seq<Id>) {
    forall i: nat, j: nat | j == i + 1 < |walk| :: Get(parents, walk[i]) == Some(walk[j])
  }

  lemma {:induction false} WalkEnds(parents: Parents, walk: seq<Id>, i: nat)
    requires Walk(parents, walk) && i < |walk| && walk[|walk| - 1] !in parents
    ensures EndsWithin(parents, walk[i], |walk| - 1 - i)
    decreases |walk| - i
  {
    if i < |walk| - 1 { WalkEnds(parents, walk, i + 1); }
  }

  lemma {:induction false} LoopNeverEnds(parents: Parents, walk: seq<Id>, back: nat, i: nat, n: nat)
    requires Walk(parents, walk) && i < |walk| && back < |walk|
    requires walk[|walk| - 1] in parents && parents[walk[|walk| - 1]] == walk[back]
    ensures !EndsWithin(parents, walk[i], n)
    decreases n
  {
    var next := if i < |walk| - 1 then i + 1 else back;
    assert Get(parents, walk[i]) == Some(walk[next]);
    if n > 0 {
      LoopNeverEnds(parents, walk, back, next, n - 1);
    }
  }

  lemma LoopFound(parents: Parents, walk: seq<Id>)
    requires walk != [] && Walk(parents, walk)
    requires walk[|walk| - 1] in parents && parents[walk[|walk| - 1]] in walk
    ensures !ChainEnds(parents, walk[0])
  {
    var back :| 0 <= back < |walk| && walk[back] == parents[walk[|walk| - 1]];
    forall n: nat ensures !EndsWithin(parents, walk[0], n) {
      LoopNeverEnds(parents, walk, back, 0, n);
    }
  }

  lemma WalkOfOne(parents: Parents, id: Id)
    ensures Walk(parents, [id])
  {}

  lemma WalkGrows(parents: Parents, walk: seq<Id>, next: Id)
    requires walk != [] && Walk(parents, walk) && Get(parents, walk[|walk| - 1]) == Some(next)
    ensures Walk(parents, walk + [next])
  {}

  lemma EndsInTime(parents: Parents, id: Id, n: nat)
    requires EndsWithin(parents, id, n)
    ensures ChainEnds(parents, id)
  {}

  lemma SmallerWithout(s: set<Id>, visited: set<Id>, id: Id)
    requires id in s && id !in visited
    ensures |s - (visited + {id})| < |s - visited|
  {
    assert s - visited == (s - (visited + {id})) + {id};
  }

  method ParentPathContainsCycle(id: Id, parents: Parents) returns (cyclic: bool)
    requires "" !in parents.Values
    ensures cyclic <==> !ChainEnds(parents, id)
  {
    hide ChainEnds, EndsWithin, Walk;
    var visited := {id};
    var current := Get(parents, id);
    ghost var walk := [id];
    WalkOfOne(parents, id);
    while current.Some? && current.value != ""
      invariant walk != [] && walk[0] == id && Walk(parents, walk)
      invariant forall x :: x in visited <==> x in walk
      invariant current == Get(parents, walk[|walk| - 1])
      decreases |parents.Values - visited|
    {
      if current.value in visited {
        LoopFound(parents, walk);
        return true;
      }
      SmallerWithout(parents.Values, visited, current.value);
      visited := visited + {current.value};
      WalkGrows(parents, walk, current.value);
      walk := walk + [current.value];
      current := Get(parents, current.value);
    }
    WalkEnds(parents, walk, 0);
    EndsInTime(parents, id, |walk| - 1);
    return false;
  }
}
