/** The trunk draft of the tree. Its construction (`put`, `update`,
    `testAndSplit`, `canonize`) and `searchNode` are the main tree's. What
    differs is the node API of `Node.java`: ids gathered from the whole
    subtree by `getData`, optionally bounded, and a cached count. The
    `search`, `searchWithCount` and `match` built on that API differ too, and
    so does the binary writer, which stores `getData()` for each node. */
module TrunkTree {
  import opened Outcomes
  import opened Strings
  import opened GstNode
  import opened Arena
  import opened Query
  import opened Propagation
  import Codec

  /** The elements of a sequence, as a set. */
  function Elems(xs: seq<int>): set<int>
  {
    set x | x in xs
  }

  // ---- getData ----

  /** One `for (int num : ...)` loop of `getData`: each element is added to
      `ret`, and the loop stops as soon as `ret` holds exactly `limit`
      elements. The flag tells whether it stopped early. */
  function TakeInto(xs: seq<int>, ret: set<int>, limit: int): (r: (set<int>, bool))
    ensures ret <= r.0 <= ret + Elems(xs)
    ensures r.1 ==> |r.0| == limit
    ensures !r.1 ==> r.0 == ret + Elems(xs)
    ensures |ret| < limit ==> |r.0| <= limit
    decreases |xs|
  {
    if xs == [] then (ret, false)
    else
      var ret' := ret + {xs[0]};
      assert |ret'| <= |ret| + 1 by {
        if xs[0] in ret { assert ret' == ret; }
      }
      if |ret'| == limit then (ret', true)
      else
        var r := TakeInto(xs[1..], ret', limit);
        assert Elems(xs) == {xs[0]} + Elems(xs[1..]) by {
          forall x ensures x in Elems(xs) <==> x in {xs[0]} + Elems(xs[1..]) {
            if x in xs && x != xs[0] {
              var k :| 0 <= k < |xs| && xs[k] == x;
              assert xs[1..][k - 1] == x;
            }
          }
        }
        r
  }

  /** `getData(numElements)` of node `n`, with `limit` for `numElements`:
      the node's own ids in hash-set order, then, while fewer than `limit`
      are collected (or for ever when `limit` is -1), the ids of each child,
      which is asked for just the number still missing. Children are taken
      in the order of their edge index. `fuel` bounds the depth; a node
      reached with no fuel left gives only its own ids. */
  ghost function GetData(t: Tree, n: int, limit: int, fuel: nat): (r: set<int>)
    requires EdgesWf(t) && ValidNode(t, n)
    ensures limit >= 1 ==> |r| <= limit
    decreases fuel, 0, 0
  {
    var own := TakeInto(Codec.Enumerate(t.nodes[n].ids), {}, limit);
    if own.1 || fuel == 0 then own.0
    else ChildrenData(t, n, 0, limit, own.0, fuel - 1)
  }

  /** The loop of `getData` over the edges of `n`, from edge index `e` on,
      with `ret` collected so far. */
  ghost function ChildrenData(t: Tree, n: int, e: nat, limit: int, ret: set<int>, fuel: nat): (r: set<int>)
    requires EdgesWf(t) && ValidNode(t, n)
    ensures ret <= r
    ensures limit >= 1 && |ret| <= limit ==> |r| <= limit
    decreases fuel, 1, |t.edges| - e
  {
    if e >= |t.edges| then ret
    else if e in t.nodes[n].edges.Values && (limit == -1 || |ret| < limit) then
      var missing := if limit == -1 then -1 else limit - |ret|;
      var sub := GetData(t, t.edges[e].dest, missing, fuel);
      var got := TakeInto(Codec.Enumerate(sub), ret, limit);
      if got.1 then got.0 else ChildrenData(t, n, e + 1, limit, got.0, fuel)
    else ChildrenData(t, n, e + 1, limit, ret, fuel)
  }

  lemma {:induction false} ElemsEnumerate(s: set<int>)
    ensures Elems(Codec.Enumerate(s)) == s
  {
  }

  /** A node's own ids are among those reachable from it. */
  lemma {:induction false} ReachOwn(t: Tree, n: int, depth: nat)
    requires ValidNode(t, n)
    ensures t.nodes[n].ids <= Reach(t, n, depth)
  {
    forall x | x in t.nodes[n].ids ensures x in Reach(t, n, depth) {
      var none: seq<int> := [];
      assert IsPath(t, n, none) && PathEnd(t, n, none) == n;
      assert x in AllIds(t);
    }
  }

  /** What is reachable from a child within `depth` edges is reachable from
      the parent within `depth + 1`. */
  lemma {:induction false} ReachChild(t: Tree, n: int, e: int, depth: nat)
    requires ValidNode(t, n) && ValidEdge(t, e) && e in t.nodes[n].edges.Values
    ensures Reach(t, t.edges[e].dest, depth) <= Reach(t, n, depth + 1)
  {
    var d := t.edges[e].dest;
    forall x | x in Reach(t, d, depth) ensures x in Reach(t, n, depth + 1) {
      var p :| IsPath(t, d, p) && |p| <= depth && ValidNode(t, PathEnd(t, d, p)) &&
               x in t.nodes[PathEnd(t, d, p)].ids;
      ConsPath(t, n, e, p);
      assert IsPath(t, n, [e] + p) && PathEnd(t, n, [e] + p) == PathEnd(t, d, p);
    }
  }

  /** `getData(-1)`: every id held by the node or by a node below it. */
  lemma {:induction false} GetDataAll(t: Tree, n: int, fuel: nat)
    requires EdgesWf(t) && ValidNode(t, n)
    ensures GetData(t, n, -1, fuel) == Reach(t, n, fuel)
    decreases fuel, 0, 0, 1
  {
    var ids := t.nodes[n].ids;
    ElemsEnumerate(ids);
    assert TakeInto(Codec.Enumerate(ids), {}, -1).0 == ids;
    ReachOwn(t, n, fuel);
    if fuel == 0 {
      forall x | x in Reach(t, n, 0) ensures x in ids {
        ReachSplit(t, n, 0, x);
      }
    } else {
      GetDataAllBelow(t, n, fuel);
    }
  }

  /** The step of `GetDataAll` for a node with fuel left: its own ids and
      the edge loop together give what is reachable from it. */
  lemma {:induction false} GetDataAllBelow(t: Tree, n: int, fuel: nat)
    requires EdgesWf(t) && ValidNode(t, n) && fuel > 0
    ensures ChildrenData(t, n, 0, -1, t.nodes[n].ids, fuel - 1) == Reach(t, n, fuel)
    decreases fuel, 0, 0, 0
  {
    var ids := t.nodes[n].ids;
    var r := ChildrenData(t, n, 0, -1, ids, fuel - 1);
    ChildrenDataCovers(t, n, 0, ids, fuel - 1);
    forall x | x in Reach(t, n, fuel) ensures x in r {
      ReachSplit(t, n, fuel, x);
    }
    forall x | x in r ensures x in Reach(t, n, fuel) {
      if x !in ids {
        ChildrenDataOnly(t, n, 0, ids, fuel - 1, x);
        var e :| 0 <= e < |t.edges| && e in t.nodes[n].edges.Values &&
                 x in Reach(t, t.edges[e].dest, fuel - 1);
        ReachChild(t, n, e, fuel - 1);
      } else {
        ReachOwn(t, n, fuel);
      }
    }
  }

  /** The edge loop of `getData(-1)` gathers, from edge index `e` on,
      everything reachable from the children. */
  lemma {:induction false} ChildrenDataCovers(t: Tree, n: int, e: nat, ret: set<int>, fuel: nat)
    requires EdgesWf(t) && ValidNode(t, n)
    ensures ret <= ChildrenData(t, n, e, -1, ret, fuel)
    ensures forall e' :: e <= e' < |t.edges| && e' in t.nodes[n].edges.Values ==>
      Reach(t, t.edges[e'].dest, fuel) <= ChildrenData(t, n, e, -1, ret, fuel)
    decreases fuel, 1, |t.edges| - e, 1
  {
    if e < |t.edges| {
      if e in t.nodes[n].edges.Values {
        var got := ChildStep(t, n, e, ret, fuel);
        ChildrenDataCovers(t, n, e + 1, got, fuel);
      } else {
        ChildrenDataCovers(t, n, e + 1, ret, fuel);
      }
    }
  }

  /** ... and nothing else. */
  lemma {:induction false} ChildrenDataOnly(t: Tree, n: int, e: nat, ret: set<int>, fuel: nat, x: int)
    requires EdgesWf(t) && ValidNode(t, n)
    requires x in ChildrenData(t, n, e, -1, ret, fuel) && x !in ret
    ensures exists e' :: e <= e' < |t.edges| && e' in t.nodes[n].edges.Values &&
                         x in Reach(t, t.edges[e'].dest, fuel)
    decreases fuel, 1, |t.edges| - e, 1
  {
    if e in t.nodes[n].edges.Values {
      var got := ChildStep(t, n, e, ret, fuel);
      if x !in got {
        ChildrenDataOnly(t, n, e + 1, got, fuel, x);
      }
    } else {
      ChildrenDataOnly(t, n, e + 1, ret, fuel, x);
    }
  }

  /** One turn of the edge loop of `getData(-1)`: the child's whole data
      is added and the loop goes on. */
  lemma {:induction false} ChildStep(t: Tree, n: int, e: nat, ret: set<int>, fuel: nat) returns (got: set<int>)
    requires EdgesWf(t) && ValidNode(t, n) && e < |t.edges| && e in t.nodes[n].edges.Values
    ensures got == ret + Reach(t, t.edges[e].dest, fuel)
    ensures ChildrenData(t, n, e, -1, ret, fuel) == ChildrenData(t, n, e + 1, -1, got, fuel)
    decreases fuel, 1, |t.edges| - e, 0
  {
    var d := t.edges[e].dest;
    var sub := GetData(t, d, -1, fuel);
    GetDataAll(t, d, fuel);
    ElemsEnumerate(sub);
    got := TakeInto(Codec.Enumerate(sub), ret, -1).0;
  }

  /** A bounded `getData` only returns ids that `getData(-1)` returns. */
  lemma {:induction false} GetDataWithin(t: Tree, n: int, limit: int, fuel: nat)
    requires EdgesWf(t) && ValidNode(t, n)
    ensures GetData(t, n, limit, fuel) <= Reach(t, n, fuel)
    decreases fuel, 0, 0
  {
    var ids := t.nodes[n].ids;
    ElemsEnumerate(ids);
    ReachOwn(t, n, fuel);
    var own := TakeInto(Codec.Enumerate(ids), {}, limit);
    if !own.1 && fuel > 0 {
      ChildrenDataWithin(t, n, 0, limit, own.0, fuel - 1);
    }
  }

  lemma {:induction false} ChildrenDataWithin(t: Tree, n: int, e: nat, limit: int, ret: set<int>, fuel: nat)
    requires EdgesWf(t) && ValidNode(t, n)
    ensures ChildrenData(t, n, e, limit, ret, fuel) <= ret + Reach(t, n, fuel + 1)
    decreases fuel, 1, |t.edges| - e
  {
    if e >= |t.edges| {
    } else if e in t.nodes[n].edges.Values && (limit == -1 || |ret| < limit) {
      var d := t.edges[e].dest;
      var missing := if limit == -1 then -1 else limit - |ret|;
      var sub := GetData(t, d, missing, fuel);
      GetDataWithin(t, d, missing, fuel);
      ReachChild(t, n, e, fuel);
      ElemsEnumerate(sub);
      var got := TakeInto(Codec.Enumerate(sub), ret, limit);
      if !got.1 {
        ChildrenDataWithin(t, n, e + 1, limit, got.0, fuel);
      }
    } else {
      ChildrenDataWithin(t, n, e + 1, limit, ret, fuel);
    }
  }

  /** For `numElements >= 1`, `getData(numElements)` has at most that many
      ids, all of them among those of `getData(-1)`. */
  lemma {:induction false} GetDataBounded(t: Tree, n: int, limit: int, fuel: nat)
    requires EdgesWf(t) && ValidNode(t, n) && limit >= 1
    ensures |GetData(t, n, limit, fuel)| <= limit
    ensures GetData(t, n, limit, fuel) <= GetData(t, n, -1, fuel)
  {
    GetDataWithin(t, n, limit, fuel);
    GetDataAll(t, n, fuel);
  }

  // ---- the cached count ----

  /** The depth `getData()` is given: the number of nodes, which bounds the
      height of any tree-shaped arena. */
  ghost function AllData(t: Tree, n: int): (r: set<int>)
    requires EdgesWf(t) && ValidNode(t, n)
    ensures r == Reach(t, n, |t.nodes|)
  {
    GetDataAll(t, n, |t.nodes|);
    GetData(t, n, -1, |t.nodes|)
  }

  /** `getData().size()`, the count `computeAndCacheCount` stores. */
  ghost function Count(t: Tree, n: int): nat
    requires EdgesWf(t) && ValidNode(t, n)
  {
    |AllData(t, n)|
  }

  /** The `resultCount` field of every node, -1 while it is unset. */
  function FreshCounts(t: Tree): (c: seq<int>)
    ensures |c| == |t.nodes|
    ensures forall m :: 0 <= m < |c| ==> c[m] == -1
  {
    seq(|t.nodes|, _ => -1)
  }

  /** Every cached count is unset or the true count of its node. */
  ghost predicate CountsSound(t: Tree, counts: seq<int>)
    requires EdgesWf(t)
  {
    |counts| == |t.nodes| && forall m :: 0 <= m < |counts| && counts[m] != -1 ==> counts[m] == Count(t, m)
  }

  /** `computeAndCacheCount(recursive)`: caches and returns the count of
      `n`; when `recursive`, every child does the same, recursively. `fuel`
      bounds the depth of that recursion. */
  ghost function ComputeAndCacheCount(t: Tree, counts: seq<int>, n: int, recursive: bool, fuel: nat): (r: (seq<int>, int))
    requires EdgesWf(t) && ValidNode(t, n) && |counts| == |t.nodes|
    ensures |r.0| == |counts|
    ensures r.1 == Count(t, n) && r.0[n] == r.1
    ensures forall m :: 0 <= m < |counts| && r.0[m] != counts[m] ==> r.0[m] == Count(t, m)
    ensures !recursive ==> r.0 == counts[n := r.1]
    ensures recursive && fuel > 0 ==>
      forall e :: 0 <= e < |t.edges| && e in t.nodes[n].edges.Values ==>
        r.0[t.edges[e].dest] == Count(t, t.edges[e].dest)
    decreases fuel, 0, 0
  {
    var c := Count(t, n);
    var cached := counts[n := c];
    if !recursive || fuel == 0 then (cached, c)
    else
      var r := CacheChildren(t, n, 0, cached, fuel - 1);
      CachedOnTop(t, counts, cached, r, n);
      (r, c)
  }

  /** Caching more counts on top of a cache that already changed `n` to its
      count: `n` keeps its count and whatever changed holds its count. */
  lemma {:induction false} CachedOnTop(t: Tree, counts: seq<int>, cached: seq<int>, r: seq<int>, n: int)
    requires EdgesWf(t) && ValidNode(t, n) && |counts| == |t.nodes|
    requires cached == counts[n := Count(t, n)] && |r| == |cached|
    requires forall m :: 0 <= m < |cached| && r[m] != cached[m] ==> r[m] == Count(t, m)
    ensures r[n] == Count(t, n)
    ensures forall m :: 0 <= m < |counts| && r[m] != counts[m] ==> r[m] == Count(t, m)
  {
    forall m | 0 <= m < |counts| && r[m] != counts[m] ensures r[m] == Count(t, m) {
      if r[m] == cached[m] {
        assert m == n;
      }
    }
  }

  /** The loop of `computeAndCacheCount` over the edges of `n`, from edge
      index `e` on. */
  ghost function CacheChildren(t: Tree, n: int, e: nat, counts: seq<int>, fuel: nat): (r: seq<int>)
    requires EdgesWf(t) && ValidNode(t, n) && |counts| == |t.nodes|
    ensures |r| == |counts|
    ensures forall m :: 0 <= m < |counts| && r[m] != counts[m] ==> r[m] == Count(t, m)
    ensures forall e' :: e <= e' < |t.edges| && e' in t.nodes[n].edges.Values ==>
      r[t.edges[e'].dest] == Count(t, t.edges[e'].dest)
    decreases fuel, 1, |t.edges| - e
  {
    if e >= |t.edges| then counts
    else if e in t.nodes[n].edges.Values then
      var step := ComputeAndCacheCount(t, counts, t.edges[e].dest, true, fuel);
      CacheChildren(t, n, e + 1, step.0, fuel)
    else CacheChildren(t, n, e + 1, counts, fuel)
  }

  /** The error `getResultCount` raises while the count is unset. */
  datatype CountFault = CountNotComputed

  /** `getResultCount()`: the cached count, or `IllegalStateException`
      while it is still -1. */
  function GetResultCount(counts: seq<int>, n: int): (r: Result<int, CountFault>)
    requires 0 <= n < |counts|
    ensures r.Failure? <==> counts[n] == -1
    ensures r.Success? ==> r.value == counts[n]
  {
    if counts[n] == -1 then Failure(CountNotComputed) else Success(counts[n])
  }

  /** A fresh node has no count yet; after `computeAndCacheCount` the
      count is the number of ids in its subtree; and caching never makes a
      count wrong. */
  lemma {:induction false} ResultCountLifecycle(t: Tree, counts: seq<int>, n: int, recursive: bool, fuel: nat)
    requires EdgesWf(t) && ValidNode(t, n) && |counts| == |t.nodes|
    ensures GetResultCount(FreshCounts(t), n) == Failure(CountNotComputed)
    ensures GetResultCount(ComputeAndCacheCount(t, counts, n, recursive, fuel).0, n)
            == Success(|Reach(t, n, |t.nodes|)|)
    ensures CountsSound(t, counts) ==> CountsSound(t, ComputeAndCacheCount(t, counts, n, recursive, fuel).0)
    ensures CountsSound(t, FreshCounts(t))
  {
  }

  // ---- queries ----

  /** `search(word, results)`: `null` when no path spells `word`, otherwise
      `getData(results)` of the node `searchNode` finds. */
  ghost function SearchLimited(t: Tree, w: string, limit: int): (r: Option<set<int>>)
    requires Wf(t)
    ensures r.Some? <==> w != [] && Reads(t, t.root, w)
    ensures r.Some? && limit >= 1 ==> |r.value| <= limit
  {
    match SearchNode(t, w)
    case None => None
    case Some(d) => Some(GetData(t, d, limit, |t.nodes|))
  }

  /** `search(word)`, which is `search(word, -1)`: every id below the node
      `searchNode` finds. */
  ghost function TrunkSearch(t: Tree, w: string): (r: Option<set<int>>)
    requires Wf(t)
    ensures r.Some? <==> w != [] && Reads(t, t.root, w)
    ensures r.Some? ==> r.value == Reach(t, SearchNode(t, w).value, |t.nodes|)
  {
    var r := SearchLimited(t, w, -1);
    assert r.Some? ==> r.value == Reach(t, SearchNode(t, w).value, |t.nodes|) by {
      if r.Some? { GetDataAll(t, SearchNode(t, w).value, |t.nodes|); }
    }
    r
  }

  /** A bounded search returns part of what the unbounded one returns. */
  lemma {:induction false} SearchLimitedWithin(t: Tree, w: string, limit: int)
    requires Wf(t)
    ensures SearchLimited(t, w, limit).Some? <==> TrunkSearch(t, w).Some?
    ensures SearchLimited(t, w, limit).Some? ==> SearchLimited(t, w, limit).value <= TrunkSearch(t, w).value
  {
    if SearchNode(t, w).Some? {
      GetDataWithin(t, SearchNode(t, w).value, limit, |t.nodes|);
    }
  }

  /** `searchWithCount(word, to)`: on a miss an empty list and a total of 0;
      on a hit `getData(to)` and the node's cached count, which throws while
      the count is unset. */
  ghost function SearchWithCount(t: Tree, counts: seq<int>, w: string, to: int): (r: Result<(set<int>, int), CountFault>)
    requires Wf(t) && |counts| == |t.nodes|
    ensures SearchNode(t, w).None? ==> r == Success(({}, 0))
    ensures SearchNode(t, w).Some? ==> (r.Failure? <==> counts[SearchNode(t, w).value] == -1)
    ensures r.Success? && SearchNode(t, w).Some? ==> r.value.0 == SearchLimited(t, w, to).value
  {
    match SearchNode(t, w)
    case None => Success(({}, 0))
    case Some(d) =>
      match GetResultCount(counts, d)
      case Failure(f) => Failure(f)
      case Success(c) => Success((GetData(t, d, to, |t.nodes|), c))
  }

  /** With sound cached counts, the total `searchWithCount` reports is the
      size of the unbounded search result. */
  lemma {:induction false} SearchWithCountTotal(t: Tree, counts: seq<int>, w: string, to: int)
    requires Wf(t) && CountsSound(t, counts)
    requires SearchWithCount(t, counts, w, to).Success?
    ensures TrunkSearch(t, w).Some? ==> SearchWithCount(t, counts, w, to).value.1 == |TrunkSearch(t, w).value|
    ensures TrunkSearch(t, w).None? ==> SearchWithCount(t, counts, w, to).value == ({}, 0)
  {
  }

  // ---- binary codec ----

  /** The tree as the trunk binary writer sees it: every node's ids are
      replaced by its `getData()`. */
  ghost function Closed(t: Tree): (r: Tree)
    requires EdgesWf(t)
    ensures r.edges == t.edges && |r.nodes| == |t.nodes|
    ensures forall m :: 0 <= m < |t.nodes| ==>
      r.nodes[m] == t.nodes[m].(ids := Reach(t, m, |t.nodes|))
  {
    t.(nodes := seq(|t.nodes|, m requires 0 <= m < |t.nodes| => t.nodes[m].(ids := AllData(t, m))))
  }

  /** The trunk `toBinaryFile`: the main tree's layout, with `getData()`
      written for each node. */
  ghost function TrunkEncode(t: Tree): (r: (seq<int>, seq<int>))
    requires EdgesWf(t)
  {
    Codec.Encode(Closed(t))
  }

  /** The trunk reader gives back every edge, every edge map, and for each
      node the ids of its whole subtree; suffix links are not stored. */
  lemma {:induction false} TrunkRoundTrip(t: Tree)
    requires EdgesWf(t) && Codec.Encodable(Closed(t))
    ensures Codec.Decode(TrunkEncode(t).0, TrunkEncode(t).1).Some?
    ensures var d := Codec.Decode(TrunkEncode(t).0, TrunkEncode(t).1).value;
      && d.edges == t.edges && |d.nodes| == |t.nodes|
      && forall m :: 0 <= m < |t.nodes| ==>
           d.nodes[m].ids == Reach(t, m, |t.nodes|) && d.nodes[m].edges == t.nodes[m].edges &&
           d.nodes[m].suffix == -1
  {
    Codec.RoundTrip(Closed(t));
  }
}
