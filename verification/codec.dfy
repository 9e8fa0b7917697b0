// The binary form of a flushed tree: `toBinaryFile` writes the edge list
// and the node list to two streams of 16-bit units, and `constructFromBin`
// reads them back. Streams are sequences of units; the character encoding
// of the files and the exceptions swallowed on a malformed file are not
// part of this model.
module Codec {
  import opened Outcomes
  import opened GstNode
  import opened GstEdge
  import opened Arena

  /** Values `Writer.write(int)` stores unchanged: one 16-bit unit that is
      not half of a surrogate pair (the UTF-8 writer would replace it). */
  predicate Fits(v: int)
  {
    0 <= v < 0x1_0000 && !(0xD800 <= v < 0xE000)
  }

  predicate EdgeFits(e: Edge)
  {
    Fits(|e.text|) && Fits(e.dest) && forall i :: 0 <= i < |e.text| ==> Fits(e.text[i] as int)
  }

  predicate NodeFits(n: Node)
  {
    && Fits(|n.ids|) && Fits(|n.edges|)
    && (forall x :: x in n.ids ==> Fits(x))
    && (forall k :: k in n.edges ==> Fits(k as int) && Fits(n.edges[k]))
  }

  /** Every count, character, destination, id and edge reference of `t`
      fits in one unit. */
  predicate Encodable(t: Tree)
  {
    && Fits(|t.edges|) && Fits(|t.nodes|)
    && (forall i :: 0 <= i < |t.edges| ==> EdgeFits(t.edges[i]))
    && (forall i :: 0 <= i < |t.nodes| ==> NodeFits(t.nodes[i]))
  }

  /** The elements of `s` in some order: the writer iterates over a hash
      set or a hash map's key set, whose order the reader ignores. */
  ghost function Enumerate<T(!new)>(s: set<T>): (r: seq<T>)
    ensures |r| == |s|
    ensures forall x :: x in s <==> x in r
    decreases |s|
  {
    if |s| == 0 then []
    else
      var x :| x in s;
      var r := [x] + Enumerate(s - {x});
      assert forall y :: y in s <==> y in r by {
        forall y ensures y in s <==> y in r {
          if y != x { assert y in s - {x} <==> y in r[1..]; }
        }
      }
      r
  }

  // ---- writer ----

  /** `Writer.write(int)` keeps the low 16 bits of its argument. */
  function Unit16(v: int): (u: int)
    ensures IsUnit(u)
    ensures Fits(v) ==> u == v
  {
    v % 0x1_0000
  }

  /** Each character of `s`, then `rest`. */
  function WriteChars(s: string, rest: seq<int>): (r: seq<int>)
    ensures |r| == |s| + |rest| && r[|s|..] == rest
    ensures forall i :: 0 <= i < |s| ==> r[i] == Unit16(s[i] as int)
  {
    if s == [] then rest else [Unit16(s[0] as int)] + WriteChars(s[1..], rest)
  }

  /** One edge: label length, label characters, destination. */
  function WriteEdge(e: Edge, rest: seq<int>): (r: seq<int>)
    ensures |r| == |e.text| + 2 + |rest| && r[0] == Unit16(|e.text|)
  {
    [Unit16(|e.text|)] + WriteChars(e.text, [Unit16(e.dest)] + rest)
  }

  function WriteEdges(es: seq<Edge>, rest: seq<int>): (r: seq<int>)
    ensures es == [] ==> r == rest
    ensures |r| >= 2 * |es| + |rest|
  {
    if es == [] then rest else WriteEdge(es[0], WriteEdges(es[1..], rest))
  }

  function WriteIds(xs: seq<int>, rest: seq<int>): (r: seq<int>)
    ensures |r| == |xs| + |rest| && r[|xs|..] == rest
    ensures forall i :: 0 <= i < |xs| ==> r[i] == Unit16(xs[i])
  {
    if xs == [] then rest else [Unit16(xs[0])] + WriteIds(xs[1..], rest)
  }

  /** The (character, edge) pairs of `m` for the keys `ks`. */
  function WritePairs(m: map<char, int>, ks: seq<char>, rest: seq<int>): (r: seq<int>)
    requires forall k :: k in ks ==> k in m
    ensures |r| == 2 * |ks| + |rest| && r[2 * |ks|..] == rest
  {
    if ks == [] then rest else [Unit16(ks[0] as int), Unit16(m[ks[0]])] + WritePairs(m, ks[1..], rest)
  }

  /** One node: id count, ids, edge-map size, then (character, edge) pairs;
      ids and keys in the order the hash set and hash map yield them. */
  ghost function WriteNode(n: Node, rest: seq<int>): (r: seq<int>)
    ensures |r| == 2 + |n.ids| + 2 * |n.edges| + |rest| && r[0] == Unit16(|n.ids|)
  {
    assert |n.edges.Keys| == |n.edges|;
    [Unit16(|n.ids|)] + WriteIds(Enumerate(n.ids), [Unit16(|n.edges|)] + WritePairs(n.edges, Enumerate(n.edges.Keys), rest))
  }

  ghost function WriteNodes(ns: seq<Node>, rest: seq<int>): (r: seq<int>)
    ensures ns == [] ==> r == rest
    ensures |r| >= 2 * |ns| + |rest|
  {
    if ns == [] then rest else WriteNode(ns[0], WriteNodes(ns[1..], rest))
  }

  /** `toBinaryFile`: the edge stream and the node stream. */
  ghost function Encode(t: Tree): (r: (seq<int>, seq<int>))
    ensures |r.0| >= 1 + 2 * |t.edges| && r.0[0] == Unit16(|t.edges|)
    ensures |r.1| >= 1 + 2 * |t.nodes| && r.1[0] == Unit16(|t.nodes|)
  {
    ([Unit16(|t.edges|)] + WriteEdges(t.edges, []), [Unit16(|t.nodes|)] + WriteNodes(t.nodes, []))
  }

  // ---- reader ----

  /** A value `Reader.read()` can return before the end of a stream. */
  predicate IsUnit(x: int)
  {
    0 <= x < 0x1_0000
  }

  /** `read()`; running out of input stands for the end of the file, and a
      value no reader yields fails. */
  function ReadUnit(xs: seq<int>): (r: Option<(nat, seq<int>)>)
    ensures r.Some? <==> xs != [] && IsUnit(xs[0])
    ensures r.Some? ==> r.value.0 == xs[0] && r.value.1 == xs[1..]
  {
    if xs == [] || !IsUnit(xs[0]) then None else Some((xs[0], xs[1..]))
  }

  /** `read(char[n])`: `n` units, each taken as a character; a surrogate
      half is not a character here and fails. */
  function ReadChars(xs: seq<int>, n: nat): (r: Option<(string, seq<int>)>)
    ensures r.Some? ==> |r.value.0| == n <= |xs| && r.value.1 == xs[n..]
    ensures r.Some? ==> forall i :: 0 <= i < n ==> r.value.0[i] as int == xs[i]
    decreases n
  {
    if n == 0 then Some(([], xs))
    else if xs == [] || !Fits(xs[0]) then None
    else
      var tail := ReadChars(xs[1..], n - 1);
      if tail.None? then None
      else Some(([xs[0] as char] + tail.value.0, tail.value.1))
  }

  function DecodeEdge(xs: seq<int>): (r: Option<(Edge, seq<int>)>)
    ensures r.Some? ==> |r.value.1| < |xs|
  {
    var len := ReadUnit(xs);
    if len.None? then None
    else
      var text := ReadChars(len.value.1, len.value.0);
      if text.None? then None
      else
        var dest := ReadUnit(text.value.1);
        if dest.None? then None
        else Some((Edge(text.value.0, dest.value.0), dest.value.1))
  }

  function DecodeEdges(xs: seq<int>, n: nat): (r: Option<(seq<Edge>, seq<int>)>)
    ensures r.Some? ==> |r.value.0| == n
    decreases n
  {
    if n == 0 then Some(([], xs))
    else
      var head := DecodeEdge(xs);
      if head.None? then None
      else
        var tail := DecodeEdges(head.value.1, n - 1);
        if tail.None? then None
        else Some(([head.value.0] + tail.value.0, tail.value.1))
  }

  /** `n` times `node.addIndex(read())`. */
  function ReadIds(xs: seq<int>, n: nat, acc: set<int>): (r: Option<(set<int>, seq<int>)>)
    ensures r.Some? ==> acc <= r.value.0
    decreases n
  {
    if n == 0 then Some((acc, xs))
    else
      var x := ReadUnit(xs);
      if x.None? then None
      else ReadIds(x.value.1, n - 1, acc + {x.value.0})
  }

  /** `n` times `node.addEdge((char) read(), read())`; a later pair for the
      same character wins. */
  function ReadPairs(xs: seq<int>, n: nat, acc: map<char, int>): (r: Option<(map<char, int>, seq<int>)>)
    ensures r.Some? ==> acc.Keys <= r.value.0.Keys
    decreases n
  {
    if n == 0 then Some((acc, xs))
    else if |xs| < 2 || !Fits(xs[0]) || !IsUnit(xs[1]) then None
    else ReadPairs(xs[2..], n - 1, acc[xs[0] as char := xs[1]])
  }

  /** A fresh node filled from the stream; its suffix link is not stored. */
  function DecodeNode(xs: seq<int>): (r: Option<(Node, seq<int>)>)
    ensures r.Some? ==> r.value.0.suffix == -1
  {
    var count := ReadUnit(xs);
    if count.None? then None
    else
      var ids := ReadIds(count.value.1, count.value.0, {});
      if ids.None? then None
      else
        var size := ReadUnit(ids.value.1);
        if size.None? then None
        else
          var edges := ReadPairs(size.value.1, size.value.0, map[]);
          if edges.None? then None
          else Some((Node(ids.value.0, edges.value.0, -1), edges.value.1))
  }

  function DecodeNodes(xs: seq<int>, n: nat): (r: Option<(seq<Node>, seq<int>)>)
    ensures r.Some? ==> |r.value.0| == n
    decreases n
  {
    if n == 0 then Some(([], xs))
    else
      var head := DecodeNode(xs);
      if head.None? then None
      else
        var tail := DecodeNodes(head.value.1, n - 1);
        if tail.None? then None
        else Some(([head.value.0] + tail.value.0, tail.value.1))
  }

  /** `constructFromBin`: a tree whose root and active leaf are node 0 and
      whose last id is 0, as the constructor that reads files leaves them. */
  function Decode(edgeStream: seq<int>, nodeStream: seq<int>): (r: Option<Tree>)
    ensures r.Some? ==> r.value.root == 0 && r.value.activeLeaf == 0 && r.value.last == 0
    ensures r.Some? ==> forall i :: 0 <= i < |r.value.nodes| ==> r.value.nodes[i].suffix == -1
  {
    var edgeNum := ReadUnit(edgeStream);
    var nodeNum := ReadUnit(nodeStream);
    if edgeNum.None? || nodeNum.None? then None
    else
      var edges := DecodeEdges(edgeNum.value.1, edgeNum.value.0);
      var nodes := DecodeNodes(nodeNum.value.1, nodeNum.value.0);
      if edges.None? || nodes.None? then None
      else
        DecodedNodesUnlinked(nodeNum.value.1, nodeNum.value.0);
        Some(Tree(nodes.value.0, edges.value.0, 0, 0, 0))
  }

  lemma {:induction false} DecodedNodesUnlinked(xs: seq<int>, n: nat)
    requires DecodeNodes(xs, n).Some?
    ensures forall i :: 0 <= i < n ==> DecodeNodes(xs, n).value.0[i].suffix == -1
    decreases n
  {
    if n > 0 {
      var (v, rest) := DecodeNode(xs).value;
      DecodedNodesUnlinked(rest, n - 1);
    }
  }

  // ---- round trip ----

  /** The nodes without their suffix links. */
  function Unlink(ns: seq<Node>): (r: seq<Node>)
    ensures |r| == |ns|
    ensures forall i :: 0 <= i < |ns| ==>
      r[i].ids == ns[i].ids && r[i].edges == ns[i].edges && r[i].suffix == -1
  {
    if ns == [] then [] else [Node(ns[0].ids, ns[0].edges, -1)] + Unlink(ns[1..])
  }

  /** What the files keep of a tree: every edge, and every node's ids and
      edge map; suffix links, `last` and the active leaf are not stored. */
  function Stored(t: Tree): (r: Tree)
    ensures r.edges == t.edges && |r.nodes| == |t.nodes|
    ensures forall i :: 0 <= i < |t.nodes| ==>
      r.nodes[i].ids == t.nodes[i].ids && r.nodes[i].edges == t.nodes[i].edges && r.nodes[i].suffix == -1
    ensures r.root == 0 && r.activeLeaf == 0 && r.last == 0
  {
    Tree(Unlink(t.nodes), t.edges, 0, 0, 0)
  }

  lemma {:induction false} CharsRoundTrip(s: string, rest: seq<int>)
    requires forall i :: 0 <= i < |s| ==> Fits(s[i] as int)
    ensures ReadChars(WriteChars(s, rest), |s|) == Some((s, rest))
    decreases |s|
  {
    if s != [] {
      assert Fits(s[0] as int);
      CharsRoundTrip(s[1..], rest);
      assert [s[0]] + s[1..] == s;
    }
  }

  lemma {:induction false} EdgeRoundTrip(e: Edge, rest: seq<int>)
    requires EdgeFits(e)
    ensures DecodeEdge(WriteEdge(e, rest)) == Some((e, rest))
  {
    CharsRoundTrip(e.text, [Unit16(e.dest)] + rest);
  }

  lemma {:induction false} DecodeEdgesCons(xs: seq<int>, n: nat, e: Edge, mid: seq<int>, es: seq<Edge>, rest: seq<int>)
    requires n > 0 && DecodeEdge(xs) == Some((e, mid)) && DecodeEdges(mid, n - 1) == Some((es, rest))
    ensures DecodeEdges(xs, n) == Some(([e] + es, rest))
  {
  }

  lemma {:induction false} EdgesRoundTrip(es: seq<Edge>, rest: seq<int>)
    requires forall i :: 0 <= i < |es| ==> EdgeFits(es[i])
    ensures DecodeEdges(WriteEdges(es, rest), |es|) == Some((es, rest))
    decreases |es|
  {
    if es != [] {
      assert [es[0]] + es[1..] == es;
      var tail := WriteEdges(es[1..], rest);
      var xs := WriteEdge(es[0], tail);
      assert WriteEdges(es, rest) == xs;
      EdgeRoundTrip(es[0], tail);
      assert forall i :: 0 <= i < |es[1..]| ==> EdgeFits(es[1..][i]) by {
        forall i | 0 <= i < |es[1..]| ensures EdgeFits(es[1..][i]) {
          assert es[1..][i] == es[i + 1];
        }
      }
      EdgesRoundTrip(es[1..], rest);
      DecodeEdgesCons(xs, |es|, es[0], tail, es[1..], rest);
    }
  }

  lemma {:induction false} IdsRoundTrip(xs: seq<int>, rest: seq<int>, acc: set<int>)
    requires forall x :: x in xs ==> Fits(x)
    ensures ReadIds(WriteIds(xs, rest), |xs|, acc).Some?
    ensures ReadIds(WriteIds(xs, rest), |xs|, acc).value.1 == rest
    ensures forall x :: x in ReadIds(WriteIds(xs, rest), |xs|, acc).value.0 <==> x in acc || x in xs
    decreases |xs|
  {
    if xs != [] {
      assert Fits(xs[0]);
      IdsRoundTrip(xs[1..], rest, acc + {xs[0]});
      assert forall x :: x in xs <==> x == xs[0] || x in xs[1..];
    }
  }

  /** Reading back the pairs for the keys `ks` sets exactly those keys of
      `acc` to their values in `m`. */
  lemma {:induction false} PairsRoundTrip(m: map<char, int>, ks: seq<char>, rest: seq<int>, acc: map<char, int>)
    requires forall k :: k in m ==> Fits(k as int) && Fits(m[k])
    requires forall k :: k in ks ==> k in m
    ensures ReadPairs(WritePairs(m, ks, rest), |ks|, acc).Some?
    ensures ReadPairs(WritePairs(m, ks, rest), |ks|, acc).value.1 == rest
    ensures forall k :: k in ReadPairs(WritePairs(m, ks, rest), |ks|, acc).value.0 <==> k in acc || k in ks
    ensures forall k :: k in ks ==> ReadPairs(WritePairs(m, ks, rest), |ks|, acc).value.0[k] == m[k]
    ensures forall k :: k in acc && k !in ks ==> ReadPairs(WritePairs(m, ks, rest), |ks|, acc).value.0[k] == acc[k]
    decreases |ks|
  {
    if ks != [] {
      var k := ks[0];
      assert k in m && Fits(k as int) && Fits(m[k]);
      var xs := WritePairs(m, ks, rest);
      assert xs[2..] == WritePairs(m, ks[1..], rest);
      assert (xs[0] as char) == k && xs[1] == m[k];
      PairsRoundTrip(m, ks[1..], rest, acc[k := m[k]]);
      assert forall k :: k in ks <==> k == ks[0] || k in ks[1..];
    }
  }

  lemma {:induction false} NodeIdsRoundTrip(n: Node, tail: seq<int>)
    requires NodeFits(n)
    ensures ReadIds(WriteIds(Enumerate(n.ids), tail), |n.ids|, {}) == Some((n.ids, tail))
  {
    var ids := Enumerate(n.ids);
    assert forall x :: x in ids ==> Fits(x) by {
      forall x | x in ids ensures Fits(x) { assert x in n.ids; }
    }
    IdsRoundTrip(ids, tail, {});
    var r := ReadIds(WriteIds(ids, tail), |ids|, {});
    assert forall x :: x in r.value.0 <==> x in n.ids;
    assert r.value.0 == n.ids;
    assert r == Some((n.ids, tail));
  }

  lemma {:induction false} NodePairsRoundTrip(n: Node, rest: seq<int>)
    requires NodeFits(n)
    ensures ReadPairs(WritePairs(n.edges, Enumerate(n.edges.Keys), rest), |n.edges|, map[]) == Some((n.edges, rest))
  {
    var ks := Enumerate(n.edges.Keys);
    var empty: map<char, int> := map[];
    assert |ks| == |n.edges| by { assert |n.edges.Keys| == |n.edges|; }
    PairsRoundTrip(n.edges, ks, rest, empty);
    var got := ReadPairs(WritePairs(n.edges, ks, rest), |ks|, empty).value.0;
    assert forall k :: k in got <==> k in n.edges;
    assert forall k :: k in got ==> got[k] == n.edges[k];
    assert got == n.edges;
  }

  lemma {:induction false} NodeRoundTrip(n: Node, rest: seq<int>)
    requires NodeFits(n)
    ensures DecodeNode(WriteNode(n, rest)) == Some((Node(n.ids, n.edges, -1), rest))
  {
    var pairs := WritePairs(n.edges, Enumerate(n.edges.Keys), rest);
    var mid := [Unit16(|n.edges|)] + pairs;
    var xs := WriteNode(n, rest);
    assert xs == [|n.ids|] + WriteIds(Enumerate(n.ids), mid);
    var count := ReadUnit(xs);
    assert count == Some((|n.ids|, WriteIds(Enumerate(n.ids), mid)));
    var ids := ReadIds(count.value.1, count.value.0, {});
    assert ids == Some((n.ids, mid)) by { NodeIdsRoundTrip(n, mid); }
    var size := ReadUnit(mid);
    assert size == Some((|n.edges|, pairs));
    var edges := ReadPairs(pairs, |n.edges|, map[]);
    assert edges == Some((n.edges, rest)) by { NodePairsRoundTrip(n, rest); }
    DecodeNodeParts(xs, |n.ids|, count.value.1, n.ids, mid, |n.edges|, pairs, n.edges, rest);
  }

  /** `DecodeNode` reads a count, that many ids, a size and that many
      pairs. */
  lemma {:induction false} DecodeNodeParts(xs: seq<int>, c: nat, ys: seq<int>, ids: set<int>, mid: seq<int>,
                                           sz: nat, zs: seq<int>, m: map<char, int>, rest: seq<int>)
    requires ReadUnit(xs) == Some((c, ys)) && ReadIds(ys, c, {}) == Some((ids, mid))
    requires ReadUnit(mid) == Some((sz, zs)) && ReadPairs(zs, sz, map[]) == Some((m, rest))
    ensures DecodeNode(xs) == Some((Node(ids, m, -1), rest))
  {
  }

  lemma {:induction false} DecodeNodesCons(xs: seq<int>, n: nat, v: Node, mid: seq<int>, ns: seq<Node>, rest: seq<int>)
    requires n > 0 && DecodeNode(xs) == Some((v, mid)) && DecodeNodes(mid, n - 1) == Some((ns, rest))
    ensures DecodeNodes(xs, n) == Some(([v] + ns, rest))
  {
  }

  lemma {:induction false} NodesRoundTrip(ns: seq<Node>, rest: seq<int>)
    requires forall i :: 0 <= i < |ns| ==> NodeFits(ns[i])
    ensures DecodeNodes(WriteNodes(ns, rest), |ns|) == Some((Unlink(ns), rest))
    decreases |ns|
  {
    if ns != [] {
      var tail := WriteNodes(ns[1..], rest);
      var xs := WriteNode(ns[0], tail);
      assert WriteNodes(ns, rest) == xs;
      NodeRoundTrip(ns[0], tail);
      assert DecodeNode(xs) == Some((Node(ns[0].ids, ns[0].edges, -1), tail));
      assert forall i :: 0 <= i < |ns[1..]| ==> NodeFits(ns[1..][i]) by {
        forall i | 0 <= i < |ns[1..]| ensures NodeFits(ns[1..][i]) {
          assert ns[1..][i] == ns[i + 1];
        }
      }
      NodesRoundTrip(ns[1..], rest);
      DecodeNodesCons(xs, |ns|, Node(ns[0].ids, ns[0].edges, -1), tail, Unlink(ns[1..]), rest);
      assert Unlink(ns) == [Node(ns[0].ids, ns[0].edges, -1)] + Unlink(ns[1..]);
    }
  }

  /** Reading back what was written gives every edge and every node's ids
      and edge map; suffix links, `last` and the active leaf are reset. */
  lemma {:induction false} RoundTrip(t: Tree)
    requires Encodable(t)
    ensures Decode(Encode(t).0, Encode(t).1) == Some(Stored(t))
  {
    var empty: seq<int> := [];
    EdgesRoundTrip(t.edges, empty);
    NodesRoundTrip(t.nodes, empty);
  }

  /** Values that do not fit lose their high bits: an edge leading to node
      65536 reads back as leading to node 0. */
  lemma {:induction false} WideDestinationWraps()
    ensures DecodeEdge(WriteEdge(Edge("a", 0x1_0000), [])) == Some((Edge("a", 0), []))
  {
    var e := Edge("a", 0x1_0000);
    var xs := WriteEdge(e, []);
    assert xs == [1, 'a' as int, 0];
    var empty: seq<int> := [];
    assert ReadUnit(xs) == Some((1, xs[1..]));
    assert ReadChars(xs[1..], 1) == Some(("a", [0])) by {
      var none: string := [];
      assert ReadChars(xs[2..], 0) == Some((none, xs[2..]));
      assert xs[2..] == [0];
      assert [xs[1] as char] + none == "a";
    }
    assert ReadUnit([0]) == Some((0, empty));
  }
}
