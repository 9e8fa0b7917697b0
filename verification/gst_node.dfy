/** `GSTNode`: a node of the suffix tree. It holds the set of key ids that
    reach it, a map from leading character to edge index, and a suffix link
    (`-1` when unset). The main tree and the trunk draft use the same node
    API (`Node` in the trunk draft adds a cached count, modelled with the
    trunk tree). */
module GstNode {

  datatype Node = Node(ids: set<int>, edges: map<char, int>, suffix: int)

  /** The constructor: no edges, no ids, no suffix link. */
  function NewNode(): (n: Node)
    ensures n.ids == {} && n.edges == map[] && n.suffix == -1
  {
    Node({}, map[], -1)
  }

  /** `getEdge(ch)`: the edge stored under `ch`, or -1 when there is none. */
  function GetEdge(n: Node, ch: char): (e: int)
    ensures ch !in n.edges ==> e == -1
    ensures ch in n.edges ==> e == n.edges[ch]
  {
    if ch in n.edges then n.edges[ch] else -1
  }

  /** `addEdge(ch, e)`: afterwards `getEdge(ch)` is `e` and every other
      character keeps its edge; nothing else in the node changes. */
  function AddEdge(n: Node, ch: char, e: int): (r: Node)
    ensures GetEdge(r, ch) == e
    ensures forall c :: c != ch ==> GetEdge(r, c) == GetEdge(n, c)
    ensures r.edges.Keys == n.edges.Keys + {ch}
    ensures r.ids == n.ids && r.suffix == n.suffix
  {
    n.(edges := n.edges[ch := e])
  }

  /** `containsIndex(i)`. */
  function ContainsIndex(n: Node, i: int): (b: bool)
    ensures b <==> i in n.ids
  {
    i in n.ids
  }

  /** `addIdx(i)`: adds exactly `i`. */
  function AddIdx(n: Node, i: int): (r: Node)
    ensures ContainsIndex(r, i)
    ensures forall j :: j != i ==> (ContainsIndex(r, j) <==> ContainsIndex(n, j))
    ensures r.edges == n.edges && r.suffix == n.suffix
  {
    n.(ids := n.ids + {i})
  }

  /** `setNodeIndices(all)`: the set becomes exactly `all`. */
  function SetNodeIndices(n: Node, all: set<int>): (r: Node)
    ensures forall j :: ContainsIndex(r, j) <==> j in all
    ensures r.edges == n.edges && r.suffix == n.suffix
  {
    n.(ids := all)
  }

  /** `addIndices(more)`: set union; no id is ever removed. */
  function AddIndices(n: Node, more: set<int>): (r: Node)
    ensures forall j :: ContainsIndex(r, j) <==> ContainsIndex(n, j) || j in more
    ensures r.edges == n.edges && r.suffix == n.suffix
  {
    n.(ids := n.ids + more)
  }

  /** `getSuffix`. */
  function GetSuffix(n: Node): int
  {
    n.suffix
  }

  /** `setSuffix(s)`: afterwards `getSuffix` returns `s`. */
  function SetSuffix(n: Node, s: int): (r: Node)
    ensures GetSuffix(r) == s
    ensures r.ids == n.ids && r.edges == n.edges
  {
    n.(suffix := s)
  }

  /** `getResultCount`: the number of distinct ids at the node. */
  function ResultCount(n: Node): (k: nat)
    ensures k == 0 <==> n.ids == {}
    ensures forall i :: ContainsIndex(n, i) ==> k >= 1
  {
    |n.ids|
  }

  /** `getResultCount` is `indices.size()`: it counts each id once, so it
      grows by one exactly when `addIdx` brings a new id, and after
      `setNodeIndices(all)` or `addIndices(more)` it is the size of the new
      set. */
  lemma {:induction false} ResultCountTracksIds(n: Node, i: int, all: set<int>, more: set<int>)
    ensures ResultCount(AddIdx(n, i)) == ResultCount(n) + (if ContainsIndex(n, i) then 0 else 1)
    ensures ResultCount(SetNodeIndices(n, all)) == |all|
    ensures ResultCount(AddIndices(n, more)) == ResultCount(n) + |more - n.ids|
  {
    if i !in n.ids {
      assert n.ids + {i} == n.ids + ({i} - n.ids);
      assert n.ids !! ({i} - n.ids);
      assert |{i} - n.ids| == |{i}| == 1;
    } else {
      assert n.ids + {i} == n.ids;
    }
    assert n.ids + more == n.ids + (more - n.ids);
    assert n.ids !! (more - n.ids);
  }

  /** A fresh node answers every query with "nothing". */
  lemma {:induction false} FreshNodeIsEmpty(ch: char, i: int)
    ensures GetEdge(NewNode(), ch) == -1
    ensures !ContainsIndex(NewNode(), i)
    ensures GetSuffix(NewNode()) == -1
    ensures ResultCount(NewNode()) == 0
  {
  }

  /** `addIdx` twice is `addIdx` once, and adding an id already present
      changes nothing. */
  lemma {:induction false} AddIdxIdempotent(n: Node, i: int)
    ensures AddIdx(AddIdx(n, i), i) == AddIdx(n, i)
    ensures ContainsIndex(n, i) ==> AddIdx(n, i) == n
  {
  }
}
