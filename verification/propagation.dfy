/** How key ids reach the nodes of the suffix tree: eagerly along suffix
    links (`addIndex`, and `Node.addRef` in the trunk draft), and lazily
    from children to parents (`updateIndices` / `flush`). */
module Propagation {
  import opened GstNode
  import opened Arena

  // ---- addIndex ----

  /** The nodes that do not yet hold `i`; each step of `addIndex` removes
      one, which is why it stops even on a cyclic suffix chain. */
  ghost function Lacking(t: Tree, i: int): set<int>
  {
    set j | 0 <= j < |t.nodes| && i !in t.nodes[j].ids
  }

  /** The node reached from `n` after `k` suffix links, or -1 once the
      chain has ended. */
  ghost function Follow(t: Tree, n: int, k: nat): int
  {
    if k == 0 then n
    else
      var p := Follow(t, n, k - 1);
      if ValidNode(t, p) then t.nodes[p].suffix else -1
  }

  /** `addIndex(n, i)`: a no-op when `n` holds `i`; otherwise `i` is added
      to `n` and then to each node along its suffix-link chain, stopping at
      the end of the chain or at the first node that already holds `i`. */
  function AddIndex(t: Tree, n: int, i: int): (r: Tree)
    requires LinksWf(t) && ValidNode(t, n)
    ensures SameShape(t, r)
    ensures i in r.nodes[n].ids
    ensures i in t.nodes[n].ids ==> r == t
    ensures forall m :: 0 <= m < |t.nodes| ==> r.nodes[m].ids <= t.nodes[m].ids + {i}
    ensures forall m :: 0 <= m < |t.nodes| && i !in t.nodes[m].ids && i in r.nodes[m].ids ==>
      t.nodes[m].suffix == -1 || i in r.nodes[t.nodes[m].suffix].ids
    decreases |Lacking(t, i)|
  {
    if i in t.nodes[n].ids then t
    else
      var t' := SetNode(t, n, AddIdx(t.nodes[n], i));
      assert Lacking(t', i) == Lacking(t, i) - {n};
      var s := t.nodes[n].suffix;
      if s == -1 then t'
      else AddIndex(t', s, i)
  }

  lemma {:induction false} FollowSameShape(t: Tree, t': Tree, n: int, k: nat)
    requires SameShape(t, t')
    ensures Follow(t', n, k) == Follow(t, n, k)
  {
    if k > 0 {
      FollowSameShape(t, t', n, k - 1);
    }
  }

  lemma {:induction false} FollowShift(t: Tree, n: int, k: nat)
    requires ValidNode(t, n)
    ensures Follow(t, n, k + 1) == Follow(t, t.nodes[n].suffix, k)
  {
    if k > 0 {
      FollowShift(t, n, k - 1);
    }
  }

  /** A node `addIndex(n, i)` changes is `k` suffix links down the chain
      of `n`, and neither it nor any node before it on the chain held `i`:
      the walk stops at the first node that already holds the id, and nodes
      off the chain are left unchanged. */
  lemma {:induction false} AddIndexOnlyChain(t: Tree, n: int, i: int, m: int) returns (k: nat)
    requires LinksWf(t) && ValidNode(t, n) && 0 <= m < |t.nodes|
    requires AddIndex(t, n, i).nodes[m] != t.nodes[m]
    ensures Follow(t, n, k) == m
    ensures forall j :: 0 <= j <= k ==> ValidNode(t, Follow(t, n, j)) && i !in t.nodes[Follow(t, n, j)].ids
    decreases |Lacking(t, i)|
  {
    assert i !in t.nodes[n].ids;
    if m != n {
      var t' := SetNode(t, n, AddIdx(t.nodes[n], i));
      var s := t.nodes[n].suffix;
      AddIndexStep(t, n, i);
      var k' := AddIndexOnlyChain(t', s, i, m);
      ChainPrepend(t, t', n, i, k');
      k := k' + 1;
    } else {
      k := 0;
    }
  }

  /** One step of `addIndex` on a node without `i` that is not the last
      of its chain: mark it, then go on from its suffix link. */
  lemma {:induction false} AddIndexStep(t: Tree, n: int, i: int)
    requires LinksWf(t) && ValidNode(t, n) && i !in t.nodes[n].ids
    ensures var t' := SetNode(t, n, AddIdx(t.nodes[n], i));
      && SameShape(t, t') && LinksWf(t') && |Lacking(t', i)| < |Lacking(t, i)|
      && (t.nodes[n].suffix != -1 ==> AddIndex(t, n, i) == AddIndex(t', t.nodes[n].suffix, i))
  {
    var t' := SetNode(t, n, AddIdx(t.nodes[n], i));
    assert Lacking(t', i) == Lacking(t, i) - {n};
  }

  /** A stretch of chain without `i` in an arena with more ids, after a
      node without `i` whose suffix link starts it, is a longer stretch of
      the original arena's chain without `i`. */
  lemma {:induction false} ChainPrepend(t: Tree, t': Tree, n: int, i: int, k: nat)
    requires SameShape(t, t') && ValidNode(t, n) && i !in t.nodes[n].ids
    requires forall j :: 0 <= j <= k ==>
      ValidNode(t', Follow(t', t.nodes[n].suffix, j)) && i !in t'.nodes[Follow(t', t.nodes[n].suffix, j)].ids
    ensures Follow(t, n, k + 1) == Follow(t', t.nodes[n].suffix, k)
    ensures forall j :: 0 <= j <= k + 1 ==> ValidNode(t, Follow(t, n, j)) && i !in t.nodes[Follow(t, n, j)].ids
  {
    var s := t.nodes[n].suffix;
    forall j | 0 <= j <= k + 1
      ensures ValidNode(t, Follow(t, n, j)) && i !in t.nodes[Follow(t, n, j)].ids
    {
      if j > 0 {
        FollowSameShape(t, t', s, j - 1);
        FollowShift(t, n, j - 1);
        var x := Follow(t', s, j - 1);
        assert ValidNode(t', x) && i !in t'.nodes[x].ids;
      }
    }
    FollowSameShape(t, t', s, k);
    FollowShift(t, n, k);
  }

  /** Every node on the suffix-link chain of `n`, up to the first that
      already held `i`, holds `i` afterwards. */
  lemma {:induction false} AddIndexCoversChain(t: Tree, n: int, i: int, k: nat)
    requires LinksWf(t) && ValidNode(t, n)
    requires forall j: nat :: j < k ==> ValidNode(t, Follow(t, n, j)) && i !in t.nodes[Follow(t, n, j)].ids
    requires ValidNode(t, Follow(t, n, k))
    ensures i in AddIndex(t, n, i).nodes[Follow(t, n, k)].ids
  {
    var r := AddIndex(t, n, i);
    if k > 0 {
      AddIndexCoversChain(t, n, i, k - 1);
      var p := Follow(t, n, k - 1);
      assert i !in t.nodes[p].ids && i in r.nodes[p].ids;
    }
  }

  /** Adding an id twice is adding it once. */
  lemma {:induction false} AddIndexIdempotent(t: Tree, n: int, i: int)
    requires LinksWf(t) && ValidNode(t, n)
    ensures AddIndex(AddIndex(t, n, i), n, i) == AddIndex(t, n, i)
  {
  }

  /** `createNode(index)`: a fresh node whose only id is `index`. A fresh
      node has no suffix link, so `addIndex` stops right there. */
  function CreateNodeWith(t: Tree, index: int): (r: (Tree, int))
    requires Wf(t)
    ensures Wf(r.0)
    ensures r.1 == |t.nodes| && |r.0.nodes| == |t.nodes| + 1
    ensures r.0.nodes[..|t.nodes|] == t.nodes
    ensures r.0.nodes[r.1] == Node({index}, map[], -1)
    ensures r.0.edges == t.edges && r.0.root == t.root && r.0.activeLeaf == t.activeLeaf && r.0.last == t.last
  {
    var (t1, n) := CreateNode(t);
    var t2 := AddIndex(t1, n, index);
    SameShapeWf(t1, t2);
    assert forall m :: 0 <= m < |t.nodes| ==> t2.nodes[m] == t1.nodes[m];
    assert t2.nodes[..|t.nodes|] == t.nodes;
    (t2, n)
  }

  // ---- updateIndices / flush ----

  /** Every id held anywhere in the tree. */
  ghost function AllIds(t: Tree): set<int>
  {
    set m, x | 0 <= m < |t.nodes| && x in t.nodes[m].ids :: x
  }

  /** The ids held at `n` or at any node reached from it along a path of at
      most `depth` edges: what `n` should hold once children pass their ids
      up to their parents. */
  ghost function Reach(t: Tree, n: int, depth: nat): set<int>
  {
    set x | x in AllIds(t) &&
      exists p :: IsPath(t, n, p) && |p| <= depth && ValidNode(t, PathEnd(t, n, p)) &&
                  x in t.nodes[PathEnd(t, n, p)].ids
  }

  /** `updateIndices(n)`: a node without edges is left alone; otherwise
      each child, taken in the order of its edge index, is brought up to
      date first and its ids are then added to `n`. `fuel` bounds the depth
      of the recursion. */
  function UpdateIndices(t: Tree, n: int, fuel: nat): (r: Tree)
    requires EdgesWf(t) && KeysWf(t) && ValidNode(t, n)
    ensures SameShape(t, r)
    decreases fuel, 0, 0
  {
    if fuel == 0 || |t.nodes[n].edges| == 0 then t
    else MergeChildren(t, n, 0, fuel - 1)
  }

  /** The loop of `updateIndices` over the edges of `n`, from edge index
      `e` on. */
  function MergeChildren(t: Tree, n: int, e: nat, fuel: nat): (r: Tree)
    requires EdgesWf(t) && KeysWf(t) && ValidNode(t, n)
    ensures SameShape(t, r)
    decreases fuel, 1, |t.edges| - e
  {
    if e >= |t.edges| then t
    else if e in t.nodes[n].edges.Values then MergeChildren(TakeChild(t, n, e, fuel), n, e + 1, fuel)
    else MergeChildren(t, n, e + 1, fuel)
  }

  /** One round of that loop: bring the node edge `e` leads to up to date,
      then add its ids to `n`. */
  function TakeChild(t: Tree, n: int, e: int, fuel: nat): (r: Tree)
    requires EdgesWf(t) && KeysWf(t) && ValidNode(t, n) && ValidEdge(t, e)
    ensures SameShape(t, r)
    decreases fuel, 0, 1
  {
    var d := t.edges[e].dest;
    var t1 := UpdateIndices(t, d, fuel);
    SetNode(t1, n, AddIndices(t1.nodes[n], t1.nodes[d].ids))
  }

  /** `flush()`: `updateIndices` from the root. The recursion depth is
      bounded by the number of nodes, which no path of an acyclic arena
      exceeds; `FlushExact` and `FlushAcyclic` state what every node holds
      afterwards. */
  function Flush(t: Tree): (r: Tree)
    requires Wf(t)
    ensures Wf(r) && SameShape(t, r)
    ensures Reach(t, t.root, |t.nodes|) <= r.nodes[r.root].ids
  {
    var r := UpdateIndices(t, t.root, |t.nodes|);
    SameShapeWf(t, r);
    UpdateIndicesCollects(t, t.root, |t.nodes|);
    r
  }

  lemma {:induction false} SameShapeTrans(t1: Tree, t2: Tree, t3: Tree)
    requires SameShape(t1, t2) && SameShape(t2, t3)
    ensures SameShape(t1, t3)
  {
  }

  /** Paths only depend on the shape, which id updates leave alone. */
  lemma {:induction false} PathSameShape(t: Tree, t': Tree, n: int, p: seq<int>)
    requires SameShape(t, t') && IsPath(t, n, p)
    ensures IsPath(t', n, p) && PathEnd(t', n, p) == PathEnd(t, n, p)
    decreases |p|
  {
    if |p| > 0 {
      PathSameShape(t, t', t.edges[p[0]].dest, p[1..]);
    }
  }

  /** Growing id sets can only grow what is reachable. */
  lemma {:induction false} ReachMono(t: Tree, t': Tree, n: int, depth: nat)
    requires SameShape(t, t')
    ensures Reach(t, n, depth) <= Reach(t', n, depth)
  {
    forall x | x in Reach(t, n, depth) ensures x in Reach(t', n, depth) {
      var p :| IsPath(t, n, p) && |p| <= depth && ValidNode(t, PathEnd(t, n, p)) &&
               x in t.nodes[PathEnd(t, n, p)].ids;
      PathSameShape(t, t', n, p);
      var m := PathEnd(t, n, p);
      assert x in t'.nodes[m].ids;
      assert x in AllIds(t');
    }
  }

  /** A path of at most `depth` edges from `n` is empty or an edge of `n`
      followed by a path of at most `depth - 1` edges. */
  lemma {:induction false} ReachSplit(t: Tree, n: int, depth: nat, x: int)
    requires EdgesWf(t) && ValidNode(t, n)
    requires x in Reach(t, n, depth)
    ensures x in t.nodes[n].ids ||
      (depth > 0 && exists e :: 0 <= e < |t.edges| && e in t.nodes[n].edges.Values &&
                                x in Reach(t, t.edges[e].dest, depth - 1))
  {
    var p :| IsPath(t, n, p) && |p| <= depth && ValidNode(t, PathEnd(t, n, p)) &&
             x in t.nodes[PathEnd(t, n, p)].ids;
    if |p| > 0 {
      var e := p[0];
      assert IsPath(t, t.edges[e].dest, p[1..]) && PathEnd(t, n, p) == PathEnd(t, t.edges[e].dest, p[1..]);
      assert x in Reach(t, t.edges[e].dest, depth - 1);
    }
  }

  /** After `updateIndices(n)` with enough fuel, `n` holds every id found
      within that many edges below it. */
  lemma {:induction false} UpdateIndicesCollects(t: Tree, n: int, fuel: nat)
    requires EdgesWf(t) && KeysWf(t) && ValidNode(t, n)
    ensures Reach(t, n, fuel) <= UpdateIndices(t, n, fuel).nodes[n].ids
    decreases fuel, 0, 0
  {
    var r := UpdateIndices(t, n, fuel);
    if fuel > 0 && |t.nodes[n].edges| != 0 {
      MergeChildrenCollects(t, n, 0, fuel - 1);
    }
    forall x | x in Reach(t, n, fuel) ensures x in r.nodes[n].ids {
      ReachSplit(t, n, fuel, x);
      if x !in t.nodes[n].ids {
        var e :| 0 <= e < |t.edges| && e in t.nodes[n].edges.Values &&
                 x in Reach(t, t.edges[e].dest, fuel - 1);
      }
    }
  }

  lemma {:induction false} MergeChildrenCollects(t: Tree, n: int, e: nat, fuel: nat)
    requires EdgesWf(t) && KeysWf(t) && ValidNode(t, n)
    ensures forall e' :: e <= e' < |t.edges| && e' in t.nodes[n].edges.Values ==>
      Reach(t, t.edges[e'].dest, fuel) <= MergeChildren(t, n, e, fuel).nodes[n].ids
    decreases fuel, 1, |t.edges| - e
  {
    var r := MergeChildren(t, n, e, fuel);
    if e >= |t.edges| {
    } else if e in t.nodes[n].edges.Values {
      var d := t.edges[e].dest;
      var t2 := TakeChild(t, n, e, fuel);
      UpdateIndicesCollects(t, d, fuel);
      MergeChildrenCollects(t2, n, e + 1, fuel);
      assert t2.nodes[n].ids <= r.nodes[n].ids;
      forall e' | e < e' < |t.edges| && e' in t.nodes[n].edges.Values
        ensures Reach(t, t.edges[e'].dest, fuel) <= r.nodes[n].ids
      {
        ReachMono(t, t2, t.edges[e'].dest, fuel);
      }
    } else {
      MergeChildrenCollects(t, n, e + 1, fuel);
    }
  }

  // ---- what flush leaves at every node ----

  /** A path that starts with an edge of `n` leaves room for one edge
      fewer below that edge's end. */
  lemma {:induction false} PathTail(t: Tree, n: int, p: seq<int>)
    requires IsPath(t, n, p) && |p| > 0
    ensures ValidEdge(t, p[0]) && p[0] in t.nodes[n].edges.Values
    ensures IsPath(t, t.edges[p[0]].dest, p[1..])
    ensures PathEnd(t, n, p) == PathEnd(t, t.edges[p[0]].dest, p[1..])
  {
  }

  /** After `updateIndices(n)` with `fuel`, a node `|p|` edges below `n`
      holds every id found within `fuel - |p|` edges below it. */
  lemma {:induction false} UpdateIndicesCollectsBelow(t: Tree, n: int, fuel: nat, p: seq<int>)
    requires EdgesWf(t) && KeysWf(t) && ValidNode(t, n)
    requires IsPath(t, n, p) && |p| <= fuel
    ensures ValidNode(t, PathEnd(t, n, p))
    ensures Reach(t, PathEnd(t, n, p), fuel - |p|) <= UpdateIndices(t, n, fuel).nodes[PathEnd(t, n, p)].ids
    decreases fuel, 0, 0
  {
    PathEndValid(t, n, p);
    if |p| == 0 {
      UpdateIndicesCollects(t, n, fuel);
    } else {
      PathTail(t, n, p);
      assert |t.nodes[n].edges| != 0;
      MergeChildrenCollectsBelow(t, n, 0, fuel - 1, p);
    }
  }

  lemma {:induction false} MergeChildrenCollectsBelow(t: Tree, n: int, e: nat, fuel: nat, p: seq<int>)
    requires EdgesWf(t) && KeysWf(t) && ValidNode(t, n)
    requires IsPath(t, n, p) && 0 < |p| <= fuel + 1 && e <= p[0]
    ensures ValidNode(t, PathEnd(t, n, p))
    ensures Reach(t, PathEnd(t, n, p), fuel + 1 - |p|) <= MergeChildren(t, n, e, fuel).nodes[PathEnd(t, n, p)].ids
    decreases fuel, 1, |t.edges| - e
  {
    PathEndValid(t, n, p);
    PathTail(t, n, p);
    var m := PathEnd(t, n, p);
    var r := MergeChildren(t, n, e, fuel);
    if e == p[0] {
      var t2 := TakeChild(t, n, e, fuel);
      TakeChildCollectsBelow(t, n, fuel, p);
      SameShapeTrans(t, t2, r);
    } else {
      var r' := if e in t.nodes[n].edges.Values then TakeChild(t, n, e, fuel) else t;
      assert r == MergeChildren(r', n, e + 1, fuel);
      PathSameShape(t, r', n, p);
      MergeChildrenCollectsBelow(r', n, e + 1, fuel, p);
      ReachMono(t, r', m, fuel + 1 - |p|);
    }
  }

  lemma {:induction false} TakeChildCollectsBelow(t: Tree, n: int, fuel: nat, p: seq<int>)
    requires EdgesWf(t) && KeysWf(t) && ValidNode(t, n)
    requires IsPath(t, n, p) && 0 < |p| <= fuel + 1
    ensures ValidNode(t, PathEnd(t, n, p))
    ensures Reach(t, PathEnd(t, n, p), fuel + 1 - |p|) <= TakeChild(t, n, p[0], fuel).nodes[PathEnd(t, n, p)].ids
    decreases fuel, 0, 1
  {
    PathEndValid(t, n, p);
    PathTail(t, n, p);
    var d := t.edges[p[0]].dest;
    var t1 := UpdateIndices(t, d, fuel);
    UpdateIndicesCollectsBelow(t, d, fuel, p[1..]);
    assert t1.nodes[PathEnd(t, n, p)].ids <= TakeChild(t, n, p[0], fuel).nodes[PathEnd(t, n, p)].ids;
  }

  /** In a ranked arena no path below `m` is longer than the ranks above
      `m` allow, so looking that deep already finds everything. */
  lemma {:induction false} ReachSaturates(t: Tree, rank: seq<int>, m: int, depth: nat)
    requires Ranked(t, rank) && ValidNode(t, m) && depth >= |t.nodes| - rank[m]
    ensures Reach(t, m, |t.nodes|) <= Reach(t, m, depth)
  {
    forall x | x in Reach(t, m, |t.nodes|) ensures x in Reach(t, m, depth) {
      var q :| IsPath(t, m, q) && |q| <= |t.nodes| && ValidNode(t, PathEnd(t, m, q)) &&
               x in t.nodes[PathEnd(t, m, q)].ids;
      RankedPath(t, rank, m, q);
    }
  }

  /** In a ranked arena what lies below a child lies below its parent. */
  lemma {:induction false} ReachChild(t: Tree, rank: seq<int>, m: int, k: char)
    requires Ranked(t, rank) && ValidNode(t, m) && k in t.nodes[m].edges
    ensures Reach(t, t.edges[t.nodes[m].edges[k]].dest, |t.nodes|) <= Reach(t, m, |t.nodes|)
  {
    var e := t.nodes[m].edges[k];
    var c := t.edges[e].dest;
    forall x | x in Reach(t, c, |t.nodes|) ensures x in Reach(t, m, |t.nodes|) {
      var q :| IsPath(t, c, q) && |q| <= |t.nodes| && ValidNode(t, PathEnd(t, c, q)) &&
               x in t.nodes[PathEnd(t, c, q)].ids;
      RankedPath(t, rank, c, q);
      ConsPath(t, m, e, q);
    }
  }

  /** Every id `cur` holds at a node was found below that node in `t`. */
  ghost predicate Gathered(t: Tree, cur: Tree)
  {
    && SameShape(t, cur)
    && forall m :: 0 <= m < |t.nodes| ==> cur.nodes[m].ids <= Reach(t, m, |t.nodes|)
  }

  /** A node's own ids are found below it, along the empty path. */
  lemma {:induction false} GatheredSelf(t: Tree)
    requires EdgesWf(t)
    ensures Gathered(t, t)
  {
    forall m, x | 0 <= m < |t.nodes| && x in t.nodes[m].ids ensures x in Reach(t, m, |t.nodes|) {
      var none: seq<int> := [];
      assert IsPath(t, m, none) && PathEnd(t, m, none) == m;
      assert x in AllIds(t);
    }
  }

  /** `updateIndices` only moves ids up from children to parents, so in a
      ranked arena no node ever holds an id from outside its subtree. */
  lemma {:induction false} UpdateIndicesGathers(t: Tree, rank: seq<int>, cur: Tree, n: int, fuel: nat)
    requires Ranked(t, rank) && EdgesWf(cur) && KeysWf(cur) && ValidNode(cur, n) && Gathered(t, cur)
    ensures Gathered(t, UpdateIndices(cur, n, fuel))
    decreases fuel, 0, 0
  {
    if fuel > 0 && |cur.nodes[n].edges| != 0 {
      MergeChildrenGathers(t, rank, cur, n, 0, fuel - 1);
    }
  }

  lemma {:induction false} MergeChildrenGathers(t: Tree, rank: seq<int>, cur: Tree, n: int, e: nat, fuel: nat)
    requires Ranked(t, rank) && EdgesWf(cur) && KeysWf(cur) && ValidNode(cur, n) && Gathered(t, cur)
    ensures Gathered(t, MergeChildren(cur, n, e, fuel))
    decreases fuel, 1, |cur.edges| - e
  {
    if e < |cur.edges| {
      if e in cur.nodes[n].edges.Values {
        var k :| k in cur.nodes[n].edges && cur.nodes[n].edges[k] == e;
        TakeChildGathers(t, rank, cur, n, k, fuel);
        MergeChildrenGathers(t, rank, TakeChild(cur, n, e, fuel), n, e + 1, fuel);
      } else {
        MergeChildrenGathers(t, rank, cur, n, e + 1, fuel);
      }
    }
  }

  lemma {:induction false} TakeChildGathers(t: Tree, rank: seq<int>, cur: Tree, n: int, k: char, fuel: nat)
    requires Ranked(t, rank) && EdgesWf(cur) && KeysWf(cur) && ValidNode(cur, n) && Gathered(t, cur)
    requires k in cur.nodes[n].edges
    ensures Gathered(t, TakeChild(cur, n, cur.nodes[n].edges[k], fuel))
    decreases fuel, 0, 1
  {
    var e := cur.nodes[n].edges[k];
    var d := cur.edges[e].dest;
    var t1 := UpdateIndices(cur, d, fuel);
    UpdateIndicesGathers(t, rank, cur, d, fuel);
    var t2 := TakeChild(cur, n, e, fuel);
    SameShapeTrans(t, t1, t2);
    ReachChild(t, rank, n, k);
  }

  /** In a ranked arena, after `flush()` every node reachable from the
      root holds exactly the ids found in its subtree. */
  lemma {:induction false} FlushExact(t: Tree, rank: seq<int>, p: seq<int>)
    requires Wf(t) && Ranked(t, rank) && IsPath(t, t.root, p)
    ensures ValidNode(t, PathEnd(t, t.root, p))
    ensures Flush(t).nodes[PathEnd(t, t.root, p)].ids == Reach(t, PathEnd(t, t.root, p), |t.nodes|)
  {
    var m := PathEnd(t, t.root, p);
    RankedPath(t, rank, t.root, p);
    UpdateIndicesCollectsBelow(t, t.root, |t.nodes|, p);
    ReachSaturates(t, rank, m, |t.nodes| - |p|);
    GatheredSelf(t);
    UpdateIndicesGathers(t, rank, t, t.root, |t.nodes|);
  }

  /** In a ranked arena, after `flush()` a node reachable from the root
      holds every id of each of its children. */
  lemma {:induction false} FlushParentHoldsChild(t: Tree, rank: seq<int>, p: seq<int>, k: char)
    requires Wf(t) && Ranked(t, rank) && IsPath(t, t.root, p)
    requires ValidNode(t, PathEnd(t, t.root, p)) && k in t.nodes[PathEnd(t, t.root, p)].edges
    ensures var m := PathEnd(t, t.root, p);
      Flush(t).nodes[t.edges[t.nodes[m].edges[k]].dest].ids <= Flush(t).nodes[m].ids
  {
    var m := PathEnd(t, t.root, p);
    FlushExact(t, rank, p);
    GatheredSelf(t);
    UpdateIndicesGathers(t, rank, t, t.root, |t.nodes|);
    ReachChild(t, rank, m, k);
  }

  /** After `flush()` on an acyclic arena, such as every tree `addWord`
      builds, each node reachable from the root holds exactly the ids found
      in its subtree, and so holds the ids of each of its children. */
  lemma {:induction false} FlushAcyclic(t: Tree, p: seq<int>)
    requires Wf(t) && Acyclic(t) && IsPath(t, t.root, p)
    ensures ValidNode(t, PathEnd(t, t.root, p))
    ensures Flush(t).nodes[PathEnd(t, t.root, p)].ids == Reach(t, PathEnd(t, t.root, p), |t.nodes|)
    ensures var m := PathEnd(t, t.root, p);
      forall k :: k in t.nodes[m].edges ==>
        Flush(t).nodes[t.edges[t.nodes[m].edges[k]].dest].ids <= Flush(t).nodes[m].ids
  {
    var rank :| Ranked(t, rank);
    FlushExact(t, rank, p);
    var m := PathEnd(t, t.root, p);
    forall k | k in t.nodes[m].edges
      ensures Flush(t).nodes[t.edges[t.nodes[m].edges[k]].dest].ids <= Flush(t).nodes[m].ids
    {
      FlushParentHoldsChild(t, rank, p, k);
    }
  }

  /** `flush()` changes no edge, so the ranks stay valid. */
  lemma {:induction false} FlushRanked(t: Tree, rank: seq<int>)
    requires Wf(t) && Ranked(t, rank)
    ensures Ranked(Flush(t), rank)
  {
  }
}
