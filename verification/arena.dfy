/** The arena of the generalized suffix tree: every node and every edge
    lives in one of two append-only lists and refers to the others only by
    list index, with -1 standing for "none". */
module Arena {
  import opened GstNode
  import opened GstEdge

  /** The state of a `GSuffixTree`: the node and edge lists, the largest id
      inserted so far (`last`), the root and the leaf most recently created
      or reached by the update procedure (`activeLeaf`). */
  datatype Tree = Tree(nodes: seq<Node>, edges: seq<Edge>, last: int, root: int, activeLeaf: int)

  predicate ValidNode(t: Tree, n: int)
  {
    0 <= n < |t.nodes|
  }

  predicate ValidEdge(t: Tree, e: int)
  {
    0 <= e < |t.edges|
  }

  /** Labels are never empty and every edge leads to an existing node. */
  predicate EdgesWf(t: Tree)
  {
    forall e :: 0 <= e < |t.edges| ==> |t.edges[e].text| > 0 && ValidNode(t, t.edges[e].dest)
  }

  /** Every map entry names an existing edge whose label starts with the
      entry's key; with a map this also gives at most one edge per leading
      character. */
  predicate KeysWf(t: Tree)
  {
    forall n, k :: 0 <= n < |t.nodes| && k in t.nodes[n].edges ==>
      && ValidEdge(t, t.nodes[n].edges[k])
      && |t.edges[t.nodes[n].edges[k]].text| > 0
      && t.edges[t.nodes[n].edges[k]].text[0] == k
  }

  /** Every suffix link is -1 or an existing node. */
  predicate LinksWf(t: Tree)
  {
    forall n :: 0 <= n < |t.nodes| ==> t.nodes[n].suffix == -1 || ValidNode(t, t.nodes[n].suffix)
  }

  /** No edge is hung under two (node, character) entries: splitting an edge
      relabels it, so one owner per edge is what keeps `KeysWf`. */
  predicate UniqueRefs(t: Tree)
  {
    forall a, b, ka, kb ::
      && 0 <= a < |t.nodes| && 0 <= b < |t.nodes| && ka in t.nodes[a].edges && kb in t.nodes[b].edges
      && t.nodes[a].edges[ka] == t.nodes[b].edges[kb]
      ==> a == b && ka == kb
  }

  /** The part of the invariant a walk down the tree relies on. */
  predicate Walkable(t: Tree)
  {
    EdgesWf(t) && KeysWf(t)
  }

  /** The structural invariant of the arena. The root never gets a suffix
      link (the update procedure tests `suffix == -1` to recognise it). */
  predicate Wf(t: Tree)
  {
    && ValidNode(t, t.root)
    && ValidNode(t, t.activeLeaf)
    && t.nodes[t.root].suffix == -1
    && EdgesWf(t)
    && KeysWf(t)
    && LinksWf(t)
    && UniqueRefs(t)
  }

  /** The constructor `GSuffixTree()`: one node, which is the root and the
      active leaf; `last` starts at 0. */
  function EmptyTree(): (t: Tree)
    ensures Wf(t)
    ensures |t.nodes| == 1 && |t.edges| == 0 && t.last == 0
    ensures t.nodes[t.root].edges == map[] && t.nodes[t.root].ids == {}
  {
    Tree([NewNode()], [], 0, 0, 0)
  }

  /** `createNode()`: appends a fresh node and returns its index; every
      earlier index keeps its node. */
  function CreateNode(t: Tree): (r: (Tree, int))
    ensures r.1 == |t.nodes| && |r.0.nodes| == |t.nodes| + 1
    ensures r.0.nodes[..|t.nodes|] == t.nodes && r.0.nodes[r.1] == NewNode()
    ensures r.0.edges == t.edges
    ensures r.0.root == t.root && r.0.activeLeaf == t.activeLeaf && r.0.last == t.last
    ensures Wf(t) ==> Wf(r.0)
  {
    var t' := t.(nodes := t.nodes + [NewNode()]);
    assert t'.nodes[..|t.nodes|] == t.nodes;
    assert Wf(t) ==> Wf(t') by {
      if Wf(t) {
        AppendNodeWf(t, t');
      }
    }
    (t', |t.nodes|)
  }

  /** Appending a node with no edges and no link keeps every part of the
      invariant: nothing can refer to the new index yet. */
  lemma {:induction false} AppendNodeWf(t: Tree, t': Tree)
    requires Wf(t)
    requires t'.nodes == t.nodes + [NewNode()] && t'.edges == t.edges
    requires t'.root == t.root && t'.activeLeaf == t.activeLeaf
    ensures Wf(t')
  {
    var m := |t.nodes|;
    assert t'.nodes[m] == NewNode();
    forall n, k | 0 <= n < |t'.nodes| && k in t'.nodes[n].edges
      ensures ValidEdge(t', t'.nodes[n].edges[k])
      ensures |t'.edges[t'.nodes[n].edges[k]].text| > 0
      ensures t'.edges[t'.nodes[n].edges[k]].text[0] == k
    {
      assert n < m && t'.nodes[n] == t.nodes[n];
    }
    forall n | 0 <= n < |t'.nodes|
      ensures t'.nodes[n].suffix == -1 || ValidNode(t', t'.nodes[n].suffix)
    {
      if n < m {
        assert t'.nodes[n] == t.nodes[n];
      }
    }
    forall a, b, ka, kb |
      && 0 <= a < |t'.nodes| && 0 <= b < |t'.nodes| && ka in t'.nodes[a].edges && kb in t'.nodes[b].edges
      && t'.nodes[a].edges[ka] == t'.nodes[b].edges[kb]
      ensures a == b && ka == kb
    {
      assert a < m && t'.nodes[a] == t.nodes[a];
      assert b < m && t'.nodes[b] == t.nodes[b];
    }
  }

  /** `createEdge(label, dest)`: appends an edge and returns its index; no
      node refers to it yet. */
  function CreateEdge(t: Tree, text: string, dest: int): (r: (Tree, int))
    ensures r.1 == |t.edges| && |r.0.edges| == |t.edges| + 1
    ensures r.0.edges[..|t.edges|] == t.edges && r.0.edges[r.1] == Edge(text, dest)
    ensures r.0.nodes == t.nodes
    ensures r.0.root == t.root && r.0.activeLeaf == t.activeLeaf && r.0.last == t.last
    ensures Wf(t) && |text| > 0 && ValidNode(t, dest) ==> Wf(r.0)
  {
    var t' := t.(edges := t.edges + [Edge(text, dest)]);
    assert t'.edges[..|t.edges|] == t.edges;
    (t', |t.edges|)
  }

  /** Replaces node `n`. */
  function SetNode(t: Tree, n: int, node: Node): (r: Tree)
    requires ValidNode(t, n)
    ensures |r.nodes| == |t.nodes| && r.nodes[n] == node
    ensures forall m :: 0 <= m < |t.nodes| && m != n ==> r.nodes[m] == t.nodes[m]
    ensures r.edges == t.edges && r.root == t.root && r.activeLeaf == t.activeLeaf && r.last == t.last
  {
    t.(nodes := t.nodes[n := node])
  }

  /** Replaces the label of edge `g`. */
  function SetEdgeText(t: Tree, g: int, text: string): (r: Tree)
    requires ValidEdge(t, g)
    ensures |r.edges| == |t.edges| && r.edges[g] == Edge(text, t.edges[g].dest)
    ensures forall e :: 0 <= e < |t.edges| && e != g ==> r.edges[e] == t.edges[e]
    ensures r.nodes == t.nodes && r.root == t.root && r.activeLeaf == t.activeLeaf && r.last == t.last
  {
    t.(edges := t.edges[g := SetLabel(t.edges[g], text)])
  }

  /** Only the id sets changed, and each of them only grew. */
  predicate SameShape(t: Tree, t': Tree)
  {
    && |t'.nodes| == |t.nodes|
    && t'.edges == t.edges
    && t'.root == t.root && t'.activeLeaf == t.activeLeaf && t'.last == t.last
    && (forall m :: 0 <= m < |t.nodes| ==>
          t'.nodes[m].edges == t.nodes[m].edges && t'.nodes[m].suffix == t.nodes[m].suffix &&
          t.nodes[m].ids <= t'.nodes[m].ids)
  }

  /** Changing only id sets keeps the invariant. */
  lemma {:induction false} SameShapeWf(t: Tree, t': Tree)
    requires Wf(t) && SameShape(t, t')
    ensures Wf(t')
  {
  }

  /** What one insertion under id `value` may do to the ids already in the
      tree: the arena only grows, old ids are all kept, and the only id that
      appears anywhere is `value`. */
  predicate Extends(t: Tree, t': Tree, value: int)
  {
    && |t.nodes| <= |t'.nodes|
    && |t.edges| <= |t'.edges|
    && (forall m :: 0 <= m < |t.nodes| ==> t.nodes[m].ids <= t'.nodes[m].ids <= t.nodes[m].ids + {value})
    && (forall m :: |t.nodes| <= m < |t'.nodes| ==> t'.nodes[m].ids <= {value})
  }

  lemma {:induction false} ExtendsTrans(t1: Tree, t2: Tree, t3: Tree, value: int)
    requires Extends(t1, t2, value) && Extends(t2, t3, value)
    ensures Extends(t1, t3, value)
  {
    forall m | |t1.nodes| <= m < |t3.nodes|
      ensures t3.nodes[m].ids <= {value}
    {
      if m < |t2.nodes| {
        assert t2.nodes[m].ids <= {value};
      }
    }
  }

  // ---- paths ----

  /** `p` is a sequence of edges that can be followed from node `from`:
      each edge hangs under the node the previous one leads to. */
  ghost predicate IsPath(t: Tree, from: int, p: seq<int>)
    decreases |p|
  {
    |p| == 0 ||
    (ValidNode(t, from) && p[0] in t.nodes[from].edges.Values && ValidEdge(t, p[0]) &&
     IsPath(t, t.edges[p[0]].dest, p[1..]))
  }

  /** The node a path ends at. */
  ghost function PathEnd(t: Tree, from: int, p: seq<int>): int
    decreases |p|
  {
    if |p| == 0 || !ValidEdge(t, p[0]) then from else PathEnd(t, t.edges[p[0]].dest, p[1..])
  }

  /** The string a path spells: its labels, in order. */
  ghost function Labels(t: Tree, p: seq<int>): string
    decreases |p|
  {
    if |p| == 0 || !ValidEdge(t, p[0]) then "" else t.edges[p[0]].text + Labels(t, p[1..])
  }

  /** An edge of `cur` followed by a path from where it leads. */
  lemma {:induction false} ConsPath(t: Tree, cur: int, e: int, p: seq<int>)
    requires ValidNode(t, cur) && ValidEdge(t, e) && e in t.nodes[cur].edges.Values
    requires IsPath(t, t.edges[e].dest, p)
    ensures IsPath(t, cur, [e] + p)
    ensures PathEnd(t, cur, [e] + p) == PathEnd(t, t.edges[e].dest, p)
    ensures Labels(t, [e] + p) == t.edges[e].text + Labels(t, p)
  {
    assert ([e] + p)[1..] == p;
  }

  /** A prefix of a path is a path. */
  lemma {:induction false} PathPrefix(t: Tree, from: int, p: seq<int>, k: nat)
    requires IsPath(t, from, p) && k <= |p|
    ensures IsPath(t, from, p[..k])
    decreases |p|
  {
    if k > 0 {
      PathPrefix(t, t.edges[p[0]].dest, p[1..], k - 1);
      assert p[..k][1..] == p[1..][..k - 1];
    }
  }

  // ---- acyclicity ----

  /** `rank` numbers the nodes below their count so that every edge leads
      to a node of higher rank: a witness that the edges form no cycle.
      The invariant `Wf` alone does not exclude cycles. */
  ghost predicate Ranked(t: Tree, rank: seq<int>)
  {
    && |rank| == |t.nodes|
    && (forall n :: 0 <= n < |rank| ==> 0 <= rank[n] < |rank|)
    && (forall n, k :: 0 <= n < |t.nodes| && k in t.nodes[n].edges ==>
          ValidEdge(t, t.nodes[n].edges[k]) && ValidNode(t, t.edges[t.nodes[n].edges[k]].dest) &&
          rank[n] < rank[t.edges[t.nodes[n].edges[k]].dest])
  }

  /** An arena whose edges form no cycle: some ranking of its nodes grows
      along every edge. `addWord` keeps a tree acyclic. */
  ghost predicate Acyclic(t: Tree)
  {
    exists rank :: Ranked(t, rank)
  }

  /** The single node of a fresh tree is ranked 0. */
  lemma {:induction false} EmptyTreeRanked()
    ensures Ranked(EmptyTree(), [0]) && Acyclic(EmptyTree())
  {
  }

  /** Ranks grow by at least one along every edge of a path, so a path
      from `from` has fewer edges than there are nodes ranked above it. */
  lemma {:induction false} RankedPath(t: Tree, rank: seq<int>, from: int, p: seq<int>)
    requires Ranked(t, rank) && ValidNode(t, from) && IsPath(t, from, p)
    ensures ValidNode(t, PathEnd(t, from, p))
    ensures rank[PathEnd(t, from, p)] >= rank[from] + |p|
    ensures |p| < |t.nodes| - rank[from]
    decreases |p|
  {
    if |p| > 0 {
      var k :| k in t.nodes[from].edges && t.nodes[from].edges[k] == p[0];
      RankedPath(t, rank, t.edges[p[0]].dest, p[1..]);
    }
  }

  /** When every edge leads to an existing node, so does every path. */
  lemma {:induction false} PathEndValid(t: Tree, from: int, p: seq<int>)
    requires EdgesWf(t) && ValidNode(t, from) && IsPath(t, from, p)
    ensures ValidNode(t, PathEnd(t, from, p))
    decreases |p|
  {
    if |p| > 0 {
      PathEndValid(t, t.edges[p[0]].dest, p[1..]);
    }
  }
}
