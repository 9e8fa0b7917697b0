/** Ukkonen-style online construction of the generalized suffix tree:
    `canonize`, `testAndSplit`, `update` and `addWord` of `GSuffixTree`. */
module Construction {
  import opened Outcomes
  import opened Strings
  import opened GstNode
  import opened GstEdge
  import opened Arena
  import opened Propagation
  import opened Query

  /** A reference pair: a node and the string still to be read below it. */
  datatype Position = Position(node: int, rest: string)

  /** The ways an insertion can fail. `OutOfOrder` is the
      `IllegalStateException` of `addWord`; `MissingEdge` is the index
      exception of `edge(-1)`; `BadIndex` is a string index exception
      (`substring` past the end, `charAt` of an empty string); `OutOfFuel`
      is the bound the model puts on the `update` loop. */
  datatype Fault = OutOfOrder | MissingEdge | BadIndex | OutOfFuel

  // ---- canonize ----

  /** Path `p` leads from `from` to the node of `pos`, and its labels
      followed by the remainder of `pos` spell `str`. */
  ghost predicate Decomposes(t: Tree, from: int, p: seq<int>, pos: Position, str: string)
  {
    IsPath(t, from, p) && PathEnd(t, from, p) == pos.node && Labels(t, p) + pos.rest == str
  }

  /** `canonize(s, str)`: descends from `s` while the remaining string
      starts with the whole label of the edge for its first character.
      The result cannot descend any further, and an empty input is
      returned unchanged; `CanonizePath` shows that the labels of the
      edges walked, followed by the remainder, give back `str`. */
  function Canonize(t: Tree, s: int, str: string): (r: Position)
    requires Walkable(t) && ValidNode(t, s)
    ensures ValidNode(t, r.node) && |r.rest| <= |str|
    ensures r.rest != [] && r.rest[0] in t.nodes[r.node].edges ==>
              !StartsWith(r.rest, t.edges[t.nodes[r.node].edges[r.rest[0]]].text)
    ensures str == [] ==> r == Position(s, [])
    decreases |str|
  {
    if str != [] && str[0] in t.nodes[s].edges && StartsWith(str, t.edges[EdgeFor(t, s, str[0])].text) then
      var e := EdgeFor(t, s, str[0]);
      Canonize(t, t.edges[e].dest, str[|t.edges[e].text|..])
    else
      Position(s, str)
  }

  /** The path `canonize` walks: from `s` to the node it returns, with
      labels that, followed by the remainder, spell `str`. */
  lemma {:induction false} CanonizePath(t: Tree, s: int, str: string) returns (p: seq<int>)
    requires Walkable(t) && ValidNode(t, s)
    ensures Decomposes(t, s, p, Canonize(t, s, str), str)
    decreases |str|
  {
    if str != [] && str[0] in t.nodes[s].edges && StartsWith(str, t.edges[EdgeFor(t, s, str[0])].text) {
      var e := EdgeFor(t, s, str[0]);
      var l := t.edges[e].text;
      var q := CanonizePath(t, t.edges[e].dest, str[|l|..]);
      CanonizeStep(t, s, e, str, Canonize(t, t.edges[e].dest, str[|l|..]), q);
      p := [e] + q;
    } else {
      p := [];
      assert Labels(t, p) == [];
    }
  }

  /** One step of `canonize`: the edge walked is put in front of the path
      the rest of the descent found. */
  lemma {:induction false} CanonizeStep(t: Tree, s: int, e: int, str: string, r: Position, q: seq<int>)
    requires ValidNode(t, s) && ValidEdge(t, e) && e in t.nodes[s].edges.Values
    requires StartsWith(str, t.edges[e].text)
    requires Decomposes(t, t.edges[e].dest, q, r, str[|t.edges[e].text|..])
    ensures Decomposes(t, s, [e] + q, r, str)
  {
    var l := t.edges[e].text;
    ConsPath(t, s, e, q);
    assert str == l + str[|l|..];
  }

  /** The part of `str` that `canonize` consumed. */
  lemma {:induction false} CanonizeSuffix(t: Tree, s: int, str: string)
    requires Walkable(t) && ValidNode(t, s)
    ensures |Canonize(t, s, str).rest| <= |str|
    ensures Canonize(t, s, str).rest == str[|str| - |Canonize(t, s, str).rest|..]
  {
    var r := Canonize(t, s, str);
    var p := CanonizePath(t, s, str);
    assert str == Labels(t, p) + r.rest;
  }

  /** Reading across one whole edge label. */
  lemma {:induction false} ReadsThroughEdge(t: Tree, s: int, w: string, i: nat, j: nat)
    requires Walkable(t) && ValidNode(t, s) && i < |w| && w[i] in t.nodes[s].edges
    requires Matches(w, i, t.edges[EdgeFor(t, s, w[i])].text, |t.edges[EdgeFor(t, s, w[i])].text|)
    requires i + |t.edges[EdgeFor(t, s, w[i])].text| <= j <= |w|
    ensures ReadsAt(t, s, w, i, j) <==>
            ReadsAt(t, t.edges[EdgeFor(t, s, w[i])].dest, w, i + |t.edges[EdgeFor(t, s, w[i])].text|, j)
  {
  }

  /** `w` holds `str` at `i`, so it holds every prefix of `str` there,
      and what follows that prefix right after it. */
  lemma {:induction false} MatchesSplit(w: string, i: nat, str: string, l: string)
    requires Matches(w, i, str, |str|) && StartsWith(str, l)
    ensures Matches(w, i, l, |l|)
    ensures Matches(w, i + |l|, str[|l|..], |str| - |l|)
  {
    forall k | 0 <= k < |str| - |l| ensures w[i + |l| + k] == str[|l|..][k] {
      assert w[i + (|l| + k)] == str[|l| + k];
    }
  }

  /** A string starts with the first part of any split of it. */
  lemma {:induction false} ConcatStartsWith(a: string, b: string, str: string)
    requires a + b == str
    ensures StartsWith(str, a) && |a| + |b| == |str|
  {
    assert str[..|a|] == a;
  }

  /** Reading along a path whose labels `w` holds at `i`: reading from
      the start is reading from where the path ends. */
  lemma {:induction false} ReadsAlongPath(t: Tree, s: int, p: seq<int>, w: string, i: nat, j: nat)
    requires Walkable(t) && ValidNode(t, s) && IsPath(t, s, p)
    requires Matches(w, i, Labels(t, p), |Labels(t, p)|) && i + |Labels(t, p)| <= j <= |w|
    ensures ValidNode(t, PathEnd(t, s, p))
    ensures ReadsAt(t, s, w, i, j) <==> ReadsAt(t, PathEnd(t, s, p), w, i + |Labels(t, p)|, j)
    decreases |p|
  {
    if p != [] {
      var e := p[0];
      var l := t.edges[e].text;
      var k :| k in t.nodes[s].edges && t.nodes[s].edges[k] == e;
      assert Labels(t, p) == l + Labels(t, p[1..]);
      MatchesSplit(w, i, Labels(t, p), l);
      assert w[i] == k by { assert w[i + 0] == l[0]; }
      ReadsThroughEdge(t, s, w, i, j);
      ReadsAlongPath(t, t.edges[e].dest, p[1..], w, i + |l|, j);
    }
  }

  /** Reading from `s` and reading the remainder from where `canonize`
      stops are the same thing: for any `w` holding `str` at `i`, and any
      end `j` at or past the part `canonize` consumed. */
  lemma {:induction false} CanonizeReads(t: Tree, s: int, str: string, w: string, i: nat, j: nat)
    requires Walkable(t) && ValidNode(t, s)
    requires Matches(w, i, str, |str|)
    requires i + |str| - |Canonize(t, s, str).rest| <= j <= |w|
    ensures ReadsAt(t, s, w, i, j) <==>
            ReadsAt(t, Canonize(t, s, str).node, w, i + |str| - |Canonize(t, s, str).rest|, j)
  {
    var r := Canonize(t, s, str);
    var p := CanonizePath(t, s, str);
    ConcatStartsWith(Labels(t, p), r.rest, str);
    MatchesSplit(w, i, str, Labels(t, p));
    ReadsAlongPath(t, s, p, w, i, j);
    assert PathEnd(t, s, p) == r.node && i + |Labels(t, p)| == i + |str| - |r.rest|;
  }

  // ---- splitting an edge ----

  /** `t'` is `t` with edge `g` (under key `k` of node `s`) split after
      `|head|` characters: node `|t.nodes|` is new, holds `ids` and takes
      over `g`, whose label loses its head; edge `|t.edges|` is new, is
      labelled `head` and hangs under `k` at `s`. Nothing else changes. */
  ghost predicate SplitShape(t: Tree, s: int, k: char, head: string, t': Tree)
    requires ValidNode(t, s) && k in t.nodes[s].edges && ValidEdge(t, t.nodes[s].edges[k])
    requires |head| < |t.edges[t.nodes[s].edges[k]].text|
  {
    var g := t.nodes[s].edges[k];
    var n := |t.nodes|;
    var ne := |t.edges|;
    && |t'.nodes| == n + 1 && |t'.edges| == ne + 1
    && t'.root == t.root && t'.activeLeaf == t.activeLeaf && t'.last == t.last
    && t'.edges[ne] == Edge(head, n)
    && t'.edges[g] == Edge(t.edges[g].text[|head|..], t.edges[g].dest)
    && (forall e :: 0 <= e < ne && e != g ==> t'.edges[e] == t.edges[e])
    && t'.nodes[n] == Node(t'.nodes[n].ids, map[t.edges[g].text[|head|] := g], -1)
    && t'.nodes[s] == t.nodes[s].(edges := t.nodes[s].edges[k := ne])
    && (forall m :: 0 <= m < n && m != s ==> t'.nodes[m] == t.nodes[m])
  }

  /** The split both branches of `testAndSplit` perform on edge `g`, hung
      under key `k` of node `s`: a new node `r` takes over `g`, whose label
      loses its first `|head|` characters, and a new edge labelled `head`
      leads from `s` to `r` under the same key. The new node is created
      with no id (`createNode()`) or with the one id `value`
      (`createNode(value)`: a fresh node has no suffix link, so `addIndex`
      stops there). When `head` is what `g`'s label starts with, the two
      labels put together give back the old one; the structural invariant
      is kept either way. */
  function Split(t: Tree, s: int, k: char, head: string, value: Option<int>): (r: (Tree, int))
    requires Wf(t) && ValidNode(t, s) && k in t.nodes[s].edges
    requires 0 < |head| < |t.edges[t.nodes[s].edges[k]].text| && head[0] == k
    ensures Wf(r.0) && SplitShape(t, s, k, head, r.0) && r.1 == |t.nodes|
    ensures r.0.nodes[r.1].ids == (if value.Some? then {value.value} else {})
    ensures forall m :: 0 <= m < |t.nodes| ==>
              r.0.nodes[m].ids == t.nodes[m].ids && r.0.nodes[m].suffix == t.nodes[m].suffix
    ensures var g := t.nodes[s].edges[k];
            |r.0.edges[|t.edges|].text| > 0 && |r.0.edges[g].text| > 0 &&
            (r.0.edges[|t.edges|].text + r.0.edges[g].text == t.edges[g].text <==>
             StartsWith(t.edges[g].text, head))
  {
    var g := t.nodes[s].edges[k];
    var whole := t.edges[g].text;
    var ids := if value.Some? then {value.value} else {};
    var t' := SplitArena(t, s, k, head, ids);
    SplitArenaShape(t, s, k, head, ids);
    SplitWf(t, s, k, head, t');
    RejoinIffPrefix(whole, head);
    (t', |t.nodes|)
  }

  /** Cutting `whole` after `|head|` characters and putting `head` in
      front of the rest gives `whole` back exactly when `whole` starts with
      `head`. */
  lemma {:induction false} RejoinIffPrefix(whole: string, head: string)
    requires |head| <= |whole|
    ensures head + whole[|head|..] == whole <==> StartsWith(whole, head)
  {
    assert whole == whole[..|head|] + whole[|head|..];
    if head + whole[|head|..] == whole {
      assert whole[..|head|] == (head + whole[|head|..])[..|head|];
    }
  }

  /** The arena `Split` builds, step by step as `testAndSplit` does. */
  function SplitArena(t: Tree, s: int, k: char, head: string, ids: set<int>): Tree
    requires ValidNode(t, s) && k in t.nodes[s].edges && ValidEdge(t, t.nodes[s].edges[k])
    requires |head| < |t.edges[t.nodes[s].edges[k]].text|
  {
    var g := t.nodes[s].edges[k];
    var whole := t.edges[g].text;
    var n := |t.nodes|;
    var nodes := t.nodes + [Node(ids, map[], -1)];
    var edges := t.edges + [Edge(head, n)];
    var edges' := edges[g := SetLabel(edges[g], whole[|head|..])];
    var nodes' := nodes[n := AddEdge(nodes[n], whole[|head|], g)];
    var nodes'' := nodes'[s := AddEdge(nodes'[s], k, |t.edges|)];
    Tree(nodes'', edges', t.last, t.root, t.activeLeaf)
  }

  lemma {:induction false} SplitArenaShape(t: Tree, s: int, k: char, head: string, ids: set<int>)
    requires ValidNode(t, s) && k in t.nodes[s].edges && ValidEdge(t, t.nodes[s].edges[k])
    requires |head| < |t.edges[t.nodes[s].edges[k]].text|
    ensures SplitShape(t, s, k, head, SplitArena(t, s, k, head, ids))
    ensures SplitArena(t, s, k, head, ids).nodes[|t.nodes|].ids == ids
    ensures forall m :: 0 <= m < |t.nodes| ==>
      SplitArena(t, s, k, head, ids).nodes[m].ids == t.nodes[m].ids &&
      SplitArena(t, s, k, head, ids).nodes[m].suffix == t.nodes[m].suffix
  {
    var t' := SplitArena(t, s, k, head, ids);
    var n := |t.nodes|;
    assert t'.nodes[n] == Node(ids, map[t.edges[t.nodes[s].edges[k]].text[|head|] := t.nodes[s].edges[k]], -1);
    assert t'.nodes[s] == t.nodes[s].(edges := t.nodes[s].edges[k := |t.edges|]);
    assert forall m :: 0 <= m < n && m != s ==> t'.nodes[m] == t.nodes[m];
    assert forall e :: 0 <= e < |t.edges| && e != t.nodes[s].edges[k] ==> t'.edges[e] == t.edges[e];
  }

  /** The arena after a split is well formed. */
  lemma {:induction false} SplitWf(t: Tree, s: int, k: char, head: string, t': Tree)
    requires Wf(t) && ValidNode(t, s) && k in t.nodes[s].edges
    requires 0 < |head| < |t.edges[t.nodes[s].edges[k]].text| && head[0] == k
    requires SplitShape(t, s, k, head, t')
    ensures Wf(t')
  {
    SplitKeys(t, s, k, head, t');
    SplitUnique(t, s, k, head, t');
  }

  lemma {:induction false} SplitKeys(t: Tree, s: int, k: char, head: string, t': Tree)
    requires Wf(t) && ValidNode(t, s) && k in t.nodes[s].edges
    requires 0 < |head| < |t.edges[t.nodes[s].edges[k]].text| && head[0] == k
    requires SplitShape(t, s, k, head, t')
    ensures KeysWf(t')
  {
    var g := t.nodes[s].edges[k];
    var n := |t.nodes|;
    forall m, c | 0 <= m < |t'.nodes| && c in t'.nodes[m].edges
      ensures ValidEdge(t', t'.nodes[m].edges[c])
      ensures |t'.edges[t'.nodes[m].edges[c]].text| > 0
      ensures t'.edges[t'.nodes[m].edges[c]].text[0] == c
    {
      if m == n || (m == s && c == k) {
      } else {
        assert c in t.nodes[m].edges && t'.nodes[m].edges[c] == t.nodes[m].edges[c];
        assert t.nodes[m].edges[c] != g;
      }
    }
  }

  lemma {:induction false} SplitUnique(t: Tree, s: int, k: char, head: string, t': Tree)
    requires Wf(t) && ValidNode(t, s) && k in t.nodes[s].edges
    requires 0 < |head| < |t.edges[t.nodes[s].edges[k]].text| && head[0] == k
    requires SplitShape(t, s, k, head, t')
    ensures UniqueRefs(t')
  {
    var g := t.nodes[s].edges[k];
    var n := |t.nodes|;
    var ne := |t.edges|;
    forall a, b, ka, kb |
      && 0 <= a < |t'.nodes| && 0 <= b < |t'.nodes| && ka in t'.nodes[a].edges && kb in t'.nodes[b].edges
      && t'.nodes[a].edges[ka] == t'.nodes[b].edges[kb]
      ensures a == b && ka == kb
    {
      SplitRef(t, s, k, head, t', a, ka);
      SplitRef(t, s, k, head, t', b, kb);
    }
  }

  /** Where an entry of the split arena points. */
  lemma {:induction false} SplitRef(t: Tree, s: int, k: char, head: string, t': Tree, a: int, ka: char)
    requires Wf(t) && ValidNode(t, s) && k in t.nodes[s].edges
    requires 0 < |head| < |t.edges[t.nodes[s].edges[k]].text| && head[0] == k
    requires SplitShape(t, s, k, head, t')
    requires 0 <= a < |t'.nodes| && ka in t'.nodes[a].edges
    ensures var x := t'.nodes[a].edges[ka];
            && (x == |t.edges| <==> a == s && ka == k)
            && (x == t.nodes[s].edges[k] <==> a == |t.nodes|)
            && (a != |t.nodes| && !(a == s && ka == k) ==> ka in t.nodes[a].edges && x == t.nodes[a].edges[ka])
  {
    var g := t.nodes[s].edges[k];
    if a != |t.nodes| && !(a == s && ka == k) {
      assert t'.nodes[a].edges[ka] == t.nodes[a].edges[ka];
      assert t.nodes[a].edges[ka] != g;
    }
  }

  /** Reading a label made of two parts. */
  lemma {:induction false} MatchesConcat(w: string, i: nat, a: string, b: string, n: nat)
    requires n <= |a| + |b|
    ensures Matches(w, i, a + b, n) <==>
            (if n <= |a| then Matches(w, i, a, n)
             else Matches(w, i, a, |a|) && Matches(w, i + |a|, b, n - |a|))
  {
    var m := if n <= |a| then n else |a|;
    if Matches(w, i, a + b, n) {
      forall x | 0 <= x < m ensures w[i + x] == a[x] {
        assert w[i + x] == (a + b)[x];
      }
    }
    if Matches(w, i, a, m) && n <= |a| {
      forall x | 0 <= x < n ensures w[i + x] == (a + b)[x] {
        assert w[i + x] == a[x];
      }
    }
    if n > |a| && Matches(w, i, a, |a|) && Matches(w, i + |a|, b, n - |a|) {
      forall x | 0 <= x < n ensures w[i + x] == (a + b)[x] {
        if x >= |a| {
          assert w[i + |a| + (x - |a|)] == b[x - |a|];
        }
      }
    }
    if n > |a| && Matches(w, i, a + b, n) {
      forall x | 0 <= x < n - |a| ensures w[i + |a| + x] == b[x] {
        assert w[i + (|a| + x)] == (a + b)[|a| + x];
      }
    }
  }

  /** Reading across edge `g` (label `head + tail`) in `t` is reading
      across edge `ne` (label `head`), then across `g` (now `tail`) below
      the node `n` that holds only it, in `t'`. */
  lemma {:induction false} TwoEdgeReads(t: Tree, t': Tree, s: int, g: int, ne: int, n: int, head: string, tail: string,
                     w: string, i: nat, j: nat)
    requires Walkable(t) && Walkable(t') && ValidNode(t, s) && ValidNode(t', s) && ValidNode(t', n)
    requires |head| > 0 && |tail| > 0 && i < j <= |w| && w[i] == head[0]
    requires w[i] in t.nodes[s].edges && t.nodes[s].edges[w[i]] == g && t.edges[g].text == head + tail
    requires w[i] in t'.nodes[s].edges && t'.nodes[s].edges[w[i]] == ne && t'.edges[ne] == Edge(head, n)
    requires ValidEdge(t', g) && t'.nodes[n].edges == map[tail[0] := g] && t'.edges[g] == Edge(tail, t.edges[g].dest)
    requires j - i > |head| + |tail| ==>
               (ReadsAt(t, t.edges[g].dest, w, i + |head + tail|, j) <==>
                ReadsAt(t', t.edges[g].dest, w, i + |head| + |tail|, j))
    ensures ReadsAt(t, s, w, i, j) <==> ReadsAt(t', s, w, i, j)
  {
    if j - i <= |head + tail| {
      MatchesConcat(w, i, head, tail, j - i);
    } else {
      MatchesConcat(w, i, head, tail, |head + tail|);
    }
    if j - i > |head| {
      if Matches(w, i + |head|, tail, 1) {
        assert w[i + |head|] == tail[0] by { assert w[i + |head| + 0] == tail[0]; }
      }
      assert ReadsAt(t', s, w, i, j) <==> Matches(w, i, head, |head|) && ReadsAt(t', n, w, i + |head|, j);
    }
  }

  /** Edge `g` of entry `k` at `s` is hung under no other entry. */
  ghost predicate SoleOwner(t: Tree, s: int, k: char)
    requires ValidNode(t, s) && k in t.nodes[s].edges
  {
    forall m, c :: 0 <= m < |t.nodes| && c in t.nodes[m].edges && t.nodes[m].edges[c] == t.nodes[s].edges[k] ==>
      m == s && c == k
  }

  /** What reading through a split relies on: both arenas can be walked,
      the cut edge has one owner, and `head` is a proper non-empty prefix
      of its label. */
  ghost predicate SplitReadable(t: Tree, s: int, k: char, head: string, t': Tree)
  {
    && Walkable(t) && Walkable(t') && ValidNode(t, s) && k in t.nodes[s].edges
    && 0 < |head| < |t.edges[t.nodes[s].edges[k]].text| && head[0] == k
    && SplitShape(t, s, k, head, t')
    && StartsWith(t.edges[t.nodes[s].edges[k]].text, head)
    && SoleOwner(t, s, k)
  }

  /** Reading through the split edge: the new edge and then the old edge
      below the new node read what the old edge read. */
  lemma {:induction false} SplitEdgeReads(t: Tree, s: int, k: char, head: string, t': Tree, w: string, i: nat, j: nat)
    requires SplitReadable(t, s, k, head, t')
    requires i < j <= |w| && w[i] == k
    ensures ReadsAt(t, s, w, i, j) <==> ReadsAt(t', s, w, i, j)
    decreases j - i, 0
  {
    var g := t.nodes[s].edges[k];
    var whole := t.edges[g].text;
    var tail := whole[|head|..];
    assert whole == head + tail;
    if j - i > |whole| {
      assert ReadsAt(t, t.edges[g].dest, w, i + |whole|, j) <==> ReadsAt(t', t.edges[g].dest, w, i + |whole|, j) by {
        SplitReadsFrom(t, s, k, head, t', t.edges[g].dest, w, i + |whole|, j);
      }
    }
    TwoEdgeReads(t, t', s, g, |t.edges|, |t.nodes|, head, tail, w, i, j);
  }

  /** Two arenas in which `cur` has the same edge for the next character,
      carrying the same label, agree on reading from `cur` as far as they
      agree on reading below that edge. */
  lemma {:induction false} SharedEdgeReads(t: Tree, t': Tree, cur: int, w: string, i: nat, j: nat, e: int)
    requires Walkable(t) && Walkable(t') && ValidNode(t, cur) && ValidNode(t', cur) && i < j <= |w|
    requires w[i] in t.nodes[cur].edges && t.nodes[cur].edges[w[i]] == e
    requires w[i] in t'.nodes[cur].edges && t'.nodes[cur].edges[w[i]] == e
    requires ValidEdge(t, e) && ValidEdge(t', e) && t'.edges[e] == t.edges[e]
    requires j - i > |t.edges[e].text| ==>
               (ReadsAt(t, t.edges[e].dest, w, i + |t.edges[e].text|, j) <==>
                ReadsAt(t', t.edges[e].dest, w, i + |t.edges[e].text|, j))
    ensures ReadsAt(t, cur, w, i, j) <==> ReadsAt(t', cur, w, i, j)
  {
  }

  /** The entry of any node for any character other than the one the
      split edge hangs under is the same before and after the split, and
      so is the edge it names. */
  lemma {:induction false} SplitKeptEntry(t: Tree, s: int, k: char, head: string, t': Tree, cur: int, c: char)
    requires SplitReadable(t, s, k, head, t') && ValidNode(t, cur) && !(cur == s && c == k)
    ensures c in t.nodes[cur].edges <==> c in t'.nodes[cur].edges
  {
    if c in t.nodes[cur].edges {
      assert t'.nodes[cur].edges[c] == t.nodes[cur].edges[c];
    }
  }

  /** The edge such an entry names is left as it was. */
  lemma {:induction false} SplitKeptEdge(t: Tree, s: int, k: char, head: string, t': Tree, cur: int, c: char, e: int)
    requires SplitReadable(t, s, k, head, t') && ValidNode(t, cur) && !(cur == s && c == k)
    requires c in t.nodes[cur].edges && t.nodes[cur].edges[c] == e
    ensures c in t'.nodes[cur].edges && t'.nodes[cur].edges[c] == e
    ensures ValidEdge(t', e) && t'.edges[e] == t.edges[e]
  {
    assert t'.nodes[cur].edges[c] == e;
    assert e != t.nodes[s].edges[k];
  }

  /** Reading through an edge the split did not touch. */
  lemma {:induction false} SplitOtherReads(t: Tree, s: int, k: char, head: string, t': Tree, cur: int, w: string, i: nat, j: nat)
    requires SplitReadable(t, s, k, head, t')
    requires ValidNode(t, cur) && i < j <= |w| && !(cur == s && w[i] == k)
    ensures ReadsAt(t, cur, w, i, j) <==> ReadsAt(t', cur, w, i, j)
    decreases j - i, 0
  {
    SplitKeptEntry(t, s, k, head, t', cur, w[i]);
    if w[i] in t.nodes[cur].edges {
      var e := t.nodes[cur].edges[w[i]];
      SplitKeptEdge(t, s, k, head, t', cur, w[i], e);
      var l := t.edges[e].text;
      if j - i > |l| {
        SplitReadsFrom(t, s, k, head, t', t.edges[e].dest, w, i + |l|, j);
      }
      SharedEdgeReads(t, t', cur, w, i, j, e);
    }
  }

  /** Reading from an existing node, one edge at a time. */
  lemma {:induction false} SplitReadsFrom(t: Tree, s: int, k: char, head: string, t': Tree,
                                          cur: int, w: string, i: nat, j: nat)
    requires SplitReadable(t, s, k, head, t')
    requires ValidNode(t, cur) && i <= j <= |w|
    ensures ReadsAt(t, cur, w, i, j) <==> ReadsAt(t', cur, w, i, j)
    decreases j - i, 1
  {
    if i < j {
      if cur == s && w[i] == k {
        SplitEdgeReads(t, s, k, head, t', w, i, j);
      } else {
        SplitOtherReads(t, s, k, head, t', cur, w, i, j);
      }
    }
  }

  /** A split changes nothing in what can be read from any node that was
      already there, as long as `head` is what the split label starts
      with: the old edge is cut in two, and reading crosses the new node. */
  lemma {:induction false} SplitKeepsReads(t: Tree, s: int, k: char, head: string, t': Tree,
                                           cur: int, w: string, i: nat, j: nat)
    requires Wf(t) && ValidNode(t, s) && k in t.nodes[s].edges
    requires 0 < |head| < |t.edges[t.nodes[s].edges[k]].text| && head[0] == k
    requires SplitShape(t, s, k, head, t')
    requires StartsWith(t.edges[t.nodes[s].edges[k]].text, head)
    requires ValidNode(t, cur) && i <= j <= |w|
    ensures Wf(t')
    ensures ReadsAt(t, cur, w, i, j) <==> ReadsAt(t', cur, w, i, j)
  {
    SplitWf(t, s, k, head, t');
    assert SoleOwner(t, s, k);
    SplitReadsFrom(t, s, k, head, t', cur, w, i, j);
  }

  // ---- testAndSplit ----

  /** What `testAndSplit` hands back: the arena it leaves, whether the end
      point was reached, and the node to go on from. */
  datatype Answer = Answer(tree: Tree, endpoint: bool, node: int)

  /** `testAndSplit(s2, stringPart, c, remainder, value)`. After
      canonizing `stringPart` from `s2`:
      - a non-empty remainder `str` ends inside the edge `g` for its first
        character: if the next label character is `c` the end point is
        reached; otherwise `g` is split after `str` and the new node is
        returned;
      - an empty remainder stands at a node: without a `c`-edge the end
        point is not reached; with one, a label equal to `remainder` gets
        `value` at its destination, a label that `remainder` strictly
        extends is split after `remainder` (the new node gets `value`),
        and every other case counts as the end point.
      A missing edge, or a label no longer than `str`, are the index
      errors the Java code raises. */
  function TestAndSplit(t: Tree, s2: int, stringPart: string, c: char, remainder: string, value: int): (r: Result<Answer, Fault>)
    requires Wf(t) && ValidNode(t, s2) && |remainder| > 0
    ensures r.Failure? ==> r.error != OutOfOrder
    ensures r.Success? ==> Wf(r.value.tree) && ValidNode(r.value.tree, r.value.node)
    ensures r.Success? ==> Extends(t, r.value.tree, value)
    ensures r.Success? ==> r.value.tree.root == t.root && r.value.tree.activeLeaf == t.activeLeaf &&
                           r.value.tree.last == t.last
    ensures r.Success? && r.value.endpoint ==>
              |r.value.tree.nodes| == |t.nodes| && r.value.tree.edges == t.edges
  {
    var pos := Canonize(t, s2, stringPart);
    if pos.rest != [] then
      var r := InsideEdge(t, pos.node, pos.rest, c);
      if r.Success? then NoNewIds(t, r.value.tree, value); r else r
    else AtNode(t, pos.node, c, remainder, value)
  }

  /** An arena that only grew, with no id added anywhere, extends the old
      one under any id. */
  lemma {:induction false} NoNewIds(t: Tree, t': Tree, value: int)
    requires |t.nodes| <= |t'.nodes| && |t.edges| <= |t'.edges|
    requires forall m :: 0 <= m < |t'.nodes| ==> t'.nodes[m].ids == if m < |t.nodes| then t.nodes[m].ids else {}
    ensures Extends(t, t', value)
  {
  }

  /** `testAndSplit` when the canonical remainder `str` is not empty. */
  function InsideEdge(t: Tree, s: int, str: string, c: char): (r: Result<Answer, Fault>)
    requires Wf(t) && ValidNode(t, s) && str != []
    ensures r.Failure? ==> r.error != OutOfOrder
    ensures r.Success? ==> Wf(r.value.tree) && ValidNode(r.value.tree, r.value.node)
    ensures r.Success? ==> |t.nodes| <= |r.value.tree.nodes| && |t.edges| <= |r.value.tree.edges|
    ensures r.Success? ==> forall m :: 0 <= m < |r.value.tree.nodes| ==>
              r.value.tree.nodes[m].ids == if m < |t.nodes| then t.nodes[m].ids else {}
    ensures r.Success? ==> r.value.tree.root == t.root && r.value.tree.activeLeaf == t.activeLeaf &&
                           r.value.tree.last == t.last
    ensures r.Success? && r.value.endpoint ==> r.value.tree == t
  {
    if str[0] !in t.nodes[s].edges then Failure(MissingEdge)
    else
      var g := t.nodes[s].edges[str[0]];
      var whole := t.edges[g].text;
      if |whole| > |str| && whole[|str|] == c then Success(Answer(t, true, s))
      else if |whole| <= |str| then Failure(BadIndex)
      else
        var (t', n) := Split(t, s, str[0], str, None);
        Success(Answer(t', false, n))
  }

  /** `testAndSplit` when the canonical remainder is empty. */
  function AtNode(t: Tree, s: int, c: char, remainder: string, value: int): (r: Result<Answer, Fault>)
    requires Wf(t) && ValidNode(t, s) && |remainder| > 0
    ensures r.Success?
    ensures Wf(r.value.tree) && ValidNode(r.value.tree, r.value.node)
    ensures Extends(t, r.value.tree, value)
    ensures r.value.tree.root == t.root && r.value.tree.activeLeaf == t.activeLeaf && r.value.tree.last == t.last
    ensures r.value.endpoint ==> |r.value.tree.nodes| == |t.nodes| && r.value.tree.edges == t.edges
  {
    ExtendsSelf(t, value);
    if c !in t.nodes[s].edges then Success(Answer(t, false, s))
    else
      var e := t.nodes[s].edges[c];
      var whole := t.edges[e].text;
      if remainder == whole then
        var t' := AddIndex(t, t.edges[e].dest, value);
        SameShapeWf(t, t');
        AddIndexExtends(t, t.edges[e].dest, value);
        Success(Answer(t', true, s))
      else if StartsWith(remainder, whole) then Success(Answer(t, true, s))
      else if StartsWith(whole, remainder) then
        SplitExtends(t, s, c, remainder, value);
        var (t', _) := Split(t, s, c, remainder, Some(value));
        Success(Answer(t', false, s))
      else Success(Answer(t, true, s))
  }

  lemma {:induction false} ExtendsSelf(t: Tree, value: int)
    ensures Extends(t, t, value)
  {
  }

  /** Adding `value` along a suffix chain extends the arena under `value`. */
  lemma {:induction false} AddIndexExtends(t: Tree, n: int, value: int)
    requires LinksWf(t) && ValidNode(t, n)
    ensures Extends(t, AddIndex(t, n, value), value)
  {
    var t' := AddIndex(t, n, value);
    assert |t'.nodes| == |t.nodes| && t'.edges == t.edges;
  }

  /** A split that creates its node with the id `value` extends the arena
      under `value`. */
  lemma {:induction false} SplitExtends(t: Tree, s: int, k: char, head: string, value: int)
    requires Wf(t) && ValidNode(t, s) && k in t.nodes[s].edges
    requires 0 < |head| < |t.edges[t.nodes[s].edges[k]].text| && head[0] == k
    ensures Extends(t, Split(t, s, k, head, Some(value)).0, value)
  {
    var r := Split(t, s, k, head, Some(value));
    assert |r.0.nodes| == |t.nodes| + 1 && |r.0.edges| == |t.edges| + 1;
    assert r.0.nodes[|t.nodes|].ids == {value};
  }

  /** The first step of a reading: an edge for the first character, and
      as much of its label as the reading covers. */
  lemma {:induction false} ReadsAtFirst(t: Tree, cur: int, w: string, i: nat, j: nat)
    requires Walkable(t) && ValidNode(t, cur) && i < j <= |w| && ReadsAt(t, cur, w, i, j)
    ensures w[i] in t.nodes[cur].edges
    ensures var lab := t.edges[t.nodes[cur].edges[w[i]]].text;
            Matches(w, i, lab, if j - i <= |lab| then j - i else |lab|)
  {
  }

  /** `w` holds `a` at `i` and `b` at `i`: they agree on their common length. */
  lemma {:induction false} MatchesAgree(w: string, i: nat, a: string, b: string, n: nat)
    requires Matches(w, i, a, |a|) && Matches(w, i, b, n) && n <= |a|
    ensures a[..n] == b[..n]
  {
    forall x | 0 <= x < n ensures a[x] == b[x] {
      assert w[i + x] == a[x];
    }
  }

  /** `CanonizeReads` for the string itself. */
  lemma {:induction false} CanonizeReadsWhole(t: Tree, s: int, str: string)
    requires Walkable(t) && ValidNode(t, s)
    ensures Reads(t, s, str) <==>
            ReadsAt(t, Canonize(t, s, str).node, str, |str| - |Canonize(t, s, str).rest|, |str|)
  {
    assert Matches(str, 0, str, |str|);
    CanonizeReads(t, s, str, str, 0, |str|);
  }

  /** When `stringPart` can be read from `s2` and `canonize` stops inside
      an edge, that edge's label strictly extends the remainder. */
  lemma {:induction false} CanonicalEdge(t: Tree, s2: int, sp: string)
    requires Walkable(t) && ValidNode(t, s2) && Reads(t, s2, sp)
    requires Canonize(t, s2, sp).rest != []
    ensures var pos := Canonize(t, s2, sp);
            && pos.rest[0] in t.nodes[pos.node].edges
            && var lab := t.edges[t.nodes[pos.node].edges[pos.rest[0]]].text;
               |lab| > |pos.rest| && lab[..|pos.rest|] == pos.rest
  {
    var pos := Canonize(t, s2, sp);
    var k := CanonizedAt(t, s2, sp);
    var lab := t.edges[t.nodes[pos.node].edges[pos.rest[0]]].text;
    LabelExtends(sp, k, pos.rest, lab);
  }

  /** Where the remainder `canonize` leaves starts in `stringPart`, and what
      reading `stringPart` says there: the remainder's first character has
      an edge, and the word agrees with that edge's label. */
  lemma {:induction false} CanonizedAt(t: Tree, s2: int, sp: string) returns (k: nat)
    requires Walkable(t) && ValidNode(t, s2) && Reads(t, s2, sp)
    requires Canonize(t, s2, sp).rest != []
    ensures var pos := Canonize(t, s2, sp);
      && k + |pos.rest| == |sp| && Matches(sp, k, pos.rest, |pos.rest|)
      && pos.rest[0] in t.nodes[pos.node].edges
      && var lab := t.edges[t.nodes[pos.node].edges[pos.rest[0]]].text;
         Matches(sp, k, lab, if |pos.rest| <= |lab| then |pos.rest| else |lab|)
  {
    var pos := Canonize(t, s2, sp);
    CanonizeSuffix(t, s2, sp);
    k := |sp| - |pos.rest|;
    TailMatches(sp, pos.rest);
    CanonizeReadsWhole(t, s2, sp);
    ReadsAtFirst(t, pos.node, sp, k, |sp|);
    assert sp[k] == pos.rest[0];
  }

  /** A tail of `str` is found in `str` where it starts. */
  lemma {:induction false} TailMatches(str: string, rest: string)
    requires |rest| <= |str| && rest == str[|str| - |rest|..]
    ensures Matches(str, |str| - |rest|, rest, |rest|)
  {
    var k := |str| - |rest|;
    forall x | 0 <= x < |rest| ensures str[k + x] == rest[x] {
      assert str[k..][x] == rest[x];
    }
  }

  /** A label read at the same place as the remainder, which the
      remainder does not start with, strictly extends the remainder. */
  lemma {:induction false} LabelExtends(w: string, k: nat, rest: string, lab: string)
    requires k + |rest| == |w| && Matches(w, k, rest, |rest|)
    requires Matches(w, k, lab, if |rest| <= |lab| then |rest| else |lab|)
    requires !StartsWith(rest, lab)
    ensures |lab| > |rest| && lab[..|rest|] == rest
  {
    if |rest| <= |lab| {
      MatchesAgree(w, k, rest, lab, |rest|);
      assert rest[..|rest|] == rest;
      if |lab| == |rest| {
        assert false;
      }
    } else {
      MatchesAgree(w, k, rest, lab, |lab|);
      assert false;
    }
  }

  /** What the end point means, when `stringPart` can be read from `s2`:
      `testAndSplit` does not fail; inside an edge the end point is reached
      exactly when `stringPart + c` can be read as well; at a node, when
      `stringPart + c` cannot be read the end point is not reached. */
  lemma {:induction false} TestAndSplitEndpoint(t: Tree, s2: int, sp: string, c: char, remainder: string, value: int)
    requires Wf(t) && ValidNode(t, s2) && |remainder| > 0 && Reads(t, s2, sp)
    ensures TestAndSplit(t, s2, sp, c, remainder, value).Success?
    ensures Canonize(t, s2, sp).rest != [] ==>
              (TestAndSplit(t, s2, sp, c, remainder, value).value.endpoint <==> Reads(t, s2, sp + [c]))
    ensures Canonize(t, s2, sp).rest == [] && !Reads(t, s2, sp + [c]) ==>
              !TestAndSplit(t, s2, sp, c, remainder, value).value.endpoint
  {
    var pos := Canonize(t, s2, sp);
    var w := sp + [c];
    var k := |sp| - |pos.rest|;
    CanonizeSuffix(t, s2, sp);
    assert Matches(w, 0, sp, |sp|);
    CanonizeReads(t, s2, sp, w, 0, |w|);
    if pos.rest != [] {
      CanonicalEdge(t, s2, sp);
      var lab := t.edges[t.nodes[pos.node].edges[pos.rest[0]]].text;
      assert w[k] == pos.rest[0];
      assert Matches(w, k, lab, |pos.rest| + 1) <==> lab[|pos.rest|] == c by {
        forall x | 0 <= x < |pos.rest| ensures w[k + x] == lab[x] {
          assert w[k + x] == sp[k + x] == pos.rest[x];
        }
        assert w[k + |pos.rest|] == c;
      }
    } else {
      if c in t.nodes[pos.node].edges {
        assert w[|sp|] == c;
        assert Matches(w, |sp|, t.edges[t.nodes[pos.node].edges[c]].text, 1);
      }
    }
  }

  /** Whatever `testAndSplit` splits, what can be read from every node
      already in the arena stays the same, provided `stringPart` could be
      read from `s2`. */
  lemma {:induction false} TestAndSplitKeepsReads(t: Tree, s2: int, sp: string, c: char, remainder: string, value: int,
                               cur: int, w: string, i: nat, j: nat)
    requires Wf(t) && ValidNode(t, s2) && |remainder| > 0 && Reads(t, s2, sp)
    requires ValidNode(t, cur) && i <= j <= |w|
    ensures TestAndSplit(t, s2, sp, c, remainder, value).Success?
    ensures var t' := TestAndSplit(t, s2, sp, c, remainder, value).value.tree;
            ReadsAt(t, cur, w, i, j) <==> ReadsAt(t', cur, w, i, j)
  {
    TestAndSplitEndpoint(t, s2, sp, c, remainder, value);
    var pos := Canonize(t, s2, sp);
    var s := pos.node;
    var str := pos.rest;
    var t' := TestAndSplit(t, s2, sp, c, remainder, value).value.tree;
    if str != [] {
      CanonicalEdge(t, s2, sp);
      var whole := t.edges[t.nodes[s].edges[str[0]]].text;
      if !(whole[|str|] == c) {
        SplitKeepsReads(t, s, str[0], str, t', cur, w, i, j);
      }
    } else if c in t.nodes[s].edges {
      var e := t.nodes[s].edges[c];
      var whole := t.edges[e].text;
      if remainder == whole {
        AddIndexKeepsReads(t, t', cur, w, i, j);
      } else if !StartsWith(remainder, whole) && StartsWith(whole, remainder) {
        SplitKeepsReads(t, s, c, remainder, t', cur, w, i, j);
      }
    }
  }

  /** Changing id sets only changes nothing in what can be read. */
  lemma {:induction false} AddIndexKeepsReads(t: Tree, t': Tree, cur: int, w: string, i: nat, j: nat)
    requires Walkable(t) && SameShape(t, t') && ValidNode(t, cur) && i <= j <= |w|
    ensures Walkable(t')
    ensures ReadsAt(t, cur, w, i, j) <==> ReadsAt(t', cur, w, i, j)
    decreases j - i
  {
    if i < j && w[i] in t.nodes[cur].edges {
      var e := t.nodes[cur].edges[w[i]];
      if j - i > |t.edges[e].text| {
        AddIndexKeepsReads(t, t', t.edges[e].dest, w, i + |t.edges[e].text|, j);
      }
    }
  }

  // ---- update ----

  /** `safeCutLastChar`: the string without its last character; "" stays "". */
  function SafeCutLastChar(x: string): (r: string)
    ensures x == [] ==> r == []
    ensures x != [] ==> r + [x[|x| - 1]] == x
  {
    if |x| == 0 then [] else x[..|x| - 1]
  }

  /** Only suffix links and the active leaf may differ. */
  predicate SameIds(t: Tree, t': Tree)
  {
    && |t'.nodes| == |t.nodes| && t'.edges == t.edges && t'.root == t.root && t'.last == t.last
    && forall m :: 0 <= m < |t.nodes| ==> t'.nodes[m].ids == t.nodes[m].ids && t'.nodes[m].edges == t.nodes[m].edges
  }

  /** `node(from).setSuffix(to)`, done only when `from` is not the root. */
  function LinkUnlessRoot(t: Tree, from: int, to: int): (r: Tree)
    requires Wf(t) && ValidNode(t, from) && ValidNode(t, to)
    ensures Wf(r) && SameIds(t, r) && r.activeLeaf == t.activeLeaf
    ensures from != t.root ==> r.nodes[from].suffix == to
  {
    if from != t.root then
      var r := SetNode(t, from, SetSuffix(t.nodes[from], to));
      RelinkWf(t, r);
      r
    else t
  }

  /** Changing suffix links to existing nodes, except the root's, and
      moving the active leaf to an existing node keep the invariant. */
  lemma {:induction false} RelinkWf(t: Tree, t': Tree)
    requires Wf(t) && SameIds(t, t') && ValidNode(t', t'.activeLeaf)
    requires t'.nodes[t'.root].suffix == -1 && LinksWf(t')
    ensures Wf(t')
  {
    assert KeysWf(t') by {
      forall n, k | 0 <= n < |t'.nodes| && k in t'.nodes[n].edges
        ensures ValidEdge(t', t'.nodes[n].edges[k]) && |t'.edges[t'.nodes[n].edges[k]].text| > 0
        ensures t'.edges[t'.nodes[n].edges[k]].text[0] == k
      {
        assert t'.nodes[n].edges == t.nodes[n].edges;
      }
    }
    assert UniqueRefs(t') by {
      forall a, b, ka, kb |
        && 0 <= a < |t'.nodes| && 0 <= b < |t'.nodes| && ka in t'.nodes[a].edges && kb in t'.nodes[b].edges
        && t'.nodes[a].edges[ka] == t'.nodes[b].edges[kb]
        ensures a == b && ka == kb
      {
        assert t'.nodes[a].edges == t.nodes[a].edges && t'.nodes[b].edges == t.nodes[b].edges;
      }
    }
  }

  /** Line 3 of the update loop: the node a `c`-edge of `r` leads to if
      there is one; otherwise a new leaf holding `value`, hung under `c`
      by a new edge labelled `rest`. */
  function AttachLeaf(t: Tree, r: int, c: char, rest: string, value: int): (res: (Tree, int))
    requires Wf(t) && ValidNode(t, r) && |rest| > 0 && rest[0] == c
    ensures Wf(res.0) && ValidNode(res.0, res.1) && Extends(t, res.0, value)
    ensures res.0.root == t.root && res.0.activeLeaf == t.activeLeaf && res.0.last == t.last
    ensures c in res.0.nodes[r].edges && res.0.edges[res.0.nodes[r].edges[c]].dest == res.1
    ensures c in t.nodes[r].edges ==> res.0 == t
  {
    if c in t.nodes[r].edges then (t, t.edges[t.nodes[r].edges[c]].dest)
    else
      // createNode(value), createEdge(rest, leaf), node(r).addEdge(c, edge)
      var leaf := |t.nodes|;
      var ne := |t.edges|;
      var t' := Tree(t.nodes[r := AddEdge(t.nodes[r], c, ne)] + [Node({value}, map[], -1)],
                     t.edges + [Edge(rest, leaf)], t.last, t.root, t.activeLeaf);
      assert LeafShape(t, r, c, rest, value, t');
      NewLeafWf(t, r, c, rest, value, t');
      (t', leaf)
  }

  /** `t'` is `t` with a new leaf holding `value`, hung under the free
      key `c` of `r` by a new edge labelled `rest`. */
  ghost predicate LeafShape(t: Tree, r: int, c: char, rest: string, value: int, t': Tree)
    requires ValidNode(t, r)
  {
    t' == Tree(t.nodes[r := AddEdge(t.nodes[r], c, |t.edges|)] + [Node({value}, map[], -1)],
               t.edges + [Edge(rest, |t.nodes|)], t.last, t.root, t.activeLeaf)
  }

  /** A new leaf under a free key keeps the invariant. */
  lemma {:induction false} NewLeafWf(t: Tree, r: int, c: char, rest: string, value: int, t': Tree)
    requires Wf(t) && ValidNode(t, r) && c !in t.nodes[r].edges && |rest| > 0 && rest[0] == c
    requires LeafShape(t, r, c, rest, value, t')
    ensures Wf(t') && Extends(t, t', value)
  {
    NewLeafKeys(t, r, c, rest, value, t');
    NewLeafUnique(t, r, c, rest, value, t');
  }

  /** Where an entry of the arena with the new leaf points. */
  lemma {:induction false} NewLeafRef(t: Tree, r: int, c: char, rest: string, value: int, t': Tree, n: int, k: char)
    requires Wf(t) && ValidNode(t, r) && c !in t.nodes[r].edges
    requires LeafShape(t, r, c, rest, value, t')
    requires 0 <= n < |t'.nodes| && k in t'.nodes[n].edges
    ensures n == r && k == c ==> t'.nodes[n].edges[k] == |t.edges|
    ensures !(n == r && k == c) ==>
              n < |t.nodes| && k in t.nodes[n].edges && t'.nodes[n].edges[k] == t.nodes[n].edges[k] &&
              ValidEdge(t, t.nodes[n].edges[k]) && t'.edges[t.nodes[n].edges[k]] == t.edges[t.nodes[n].edges[k]]
  {
  }

  lemma {:induction false} NewLeafKeys(t: Tree, r: int, c: char, rest: string, value: int, t': Tree)
    requires Wf(t) && ValidNode(t, r) && c !in t.nodes[r].edges && |rest| > 0 && rest[0] == c
    requires LeafShape(t, r, c, rest, value, t')
    ensures KeysWf(t')
  {
    forall n, k | 0 <= n < |t'.nodes| && k in t'.nodes[n].edges
      ensures ValidEdge(t', t'.nodes[n].edges[k]) && |t'.edges[t'.nodes[n].edges[k]].text| > 0
      ensures t'.edges[t'.nodes[n].edges[k]].text[0] == k
    {
      NewLeafRef(t, r, c, rest, value, t', n, k);
    }
  }

  lemma {:induction false} NewLeafUnique(t: Tree, r: int, c: char, rest: string, value: int, t': Tree)
    requires Wf(t) && ValidNode(t, r) && c !in t.nodes[r].edges
    requires LeafShape(t, r, c, rest, value, t')
    ensures UniqueRefs(t')
  {
    forall a, b, ka, kb |
      && 0 <= a < |t'.nodes| && 0 <= b < |t'.nodes| && ka in t'.nodes[a].edges && kb in t'.nodes[b].edges
      && t'.nodes[a].edges[ka] == t'.nodes[b].edges[kb]
      ensures a == b && ka == kb
    {
      NewLeafRef(t, r, c, rest, value, t', a, ka);
      NewLeafRef(t, r, c, rest, value, t', b, kb);
    }
  }

  /** Keeping the ids and edges keeps `Extends`. */
  lemma {:induction false} SameIdsExtends(t: Tree, t': Tree, value: int)
    requires SameIds(t, t')
    ensures Extends(t, t', value)
  {
  }

  /** Lines 3-5 of the update loop: hang (or find) the `c`-child `leaf` of
      `r`, link the previous active leaf to it, make it the active leaf and
      link the previous `r` (`oldroot`) to `r`. */
  function Grow(t: Tree, r: int, oldroot: int, c: char, rest: string, value: int): (res: Tree)
    requires Wf(t) && ValidNode(t, r) && ValidNode(t, oldroot)
    requires |rest| > 0 && rest[0] == c
    ensures Wf(res) && Extends(t, res, value)
    ensures res.root == t.root && res.last == t.last
    ensures c in res.nodes[r].edges && res.edges[res.nodes[r].edges[c]].dest == res.activeLeaf
    ensures oldroot != t.root ==> res.nodes[oldroot].suffix == r
  {
    var (t1, leaf) := AttachLeaf(t, r, c, rest, value);
    var t2 := LinkUnlessRoot(t1, t1.activeLeaf, leaf);
    var t3 := t2.(activeLeaf := leaf);
    RelinkWf(t2, t3);
    var t4 := LinkUnlessRoot(t3, oldroot, r);
    assert Extends(t1, t4, value) by { SameIdsExtends(t1, t4, value); }
    ExtendsTrans(t, t1, t4, value);
    t4
  }

  /** Line 6 of the update loop: follow the suffix link of `s` and
      re-canonize the string without its last character, then put the
      last character back; at the root, drop the first character. */
  function NextPosition(t: Tree, s: int, tempstr: string): (r: Position)
    requires Walkable(t) && ValidNode(t, s) && tempstr != []
    requires LinksWf(t)
    ensures ValidNode(t, r.node) && |r.rest| <= |tempstr|
    ensures r.rest != [] ==> r.rest[|r.rest| - 1] == tempstr[|tempstr| - 1]
  {
    if t.nodes[s].suffix == -1 then Position(s, tempstr[1..])
    else
      var cp := Canonize(t, t.nodes[s].suffix, SafeCutLastChar(tempstr));
      Position(cp.node, cp.rest + [tempstr[|tempstr| - 1]])
  }

  /** Lines 2-7 of `update`, one round per call: while the end point is
      not reached, grow a leaf under `r`, move to the next suffix and test
      again. Line 8 links the last `r` when the end point is reached.
      `fuel` bounds the rounds. */
  function UpdateLoop(t: Tree, s: int, tempstr: string, r: int, endpoint: bool, oldroot: int,
                      c: char, rest: string, value: int, fuel: nat): (res: Result<(Tree, Position), Fault>)
    requires Wf(t) && ValidNode(t, s) && ValidNode(t, r) && ValidNode(t, oldroot)
    requires |rest| > 0 && rest[0] == c
    ensures res.Success? ==> Wf(res.value.0) && ValidNode(res.value.0, res.value.1.node)
    ensures res.Success? ==> Extends(t, res.value.0, value)
    ensures res.Success? ==> res.value.0.root == t.root && res.value.0.last == t.last
    ensures res.Success? ==> Acyclic(t) ==> Acyclic(res.value.0)
    ensures res.Failure? ==> res.error != OutOfOrder
    decreases fuel
  {
    if endpoint then
      var t' := LinkUnlessRoot(t, oldroot, r);
      SameIdsExtends(t, t', value);
      AcyclicSameEdges(t, t');
      Success((t', Position(s, tempstr)))
    else if fuel == 0 then Failure(OutOfFuel)
    else if tempstr == [] then Failure(BadIndex)
    else
      match Round(t, s, tempstr, r, oldroot, c, rest, value)
      case Failure(f) => Failure(f)
      case Success((a, next)) =>
        var res := UpdateLoop(a.tree, next.node, next.rest, a.node, a.endpoint, r, c, rest, value, fuel - 1);
        if res.Success? then
          ExtendsTrans(t, a.tree, res.value.0, value);
          res
        else res
  }

  /** Lines 3-7 of the update loop, one round: grow a leaf under `r`, move
      to the next suffix and test for the end point there. */
  function Round(t: Tree, s: int, tempstr: string, r: int, oldroot: int, c: char, rest: string, value: int)
    : (res: Result<(Answer, Position), Fault>)
    requires Wf(t) && ValidNode(t, s) && ValidNode(t, r) && ValidNode(t, oldroot)
    requires |rest| > 0 && rest[0] == c && tempstr != []
    ensures res.Success? ==> var (a, next) := res.value;
      && Wf(a.tree) && ValidNode(a.tree, a.node) && ValidNode(a.tree, next.node) && ValidNode(a.tree, r)
      && Extends(t, a.tree, value) && a.tree.root == t.root && a.tree.last == t.last
    ensures res.Success? ==> Acyclic(t) ==> Acyclic(res.value.0.tree)
    ensures res.Failure? ==> res.error != OutOfOrder
  {
    var t4 := Grow(t, r, oldroot, c, rest, value);
    var next := NextPosition(t4, s, tempstr);
    GrowAcyclic(t, r, oldroot, c, rest, value);
    TestAndSplitAcyclic(t4, next.node, SafeCutLastChar(next.rest), c, rest, value);
    match TestAndSplit(t4, next.node, SafeCutLastChar(next.rest), c, rest, value)
    case Failure(f) => Failure(f)
    case Success(a) =>
      ExtendsTrans(t, t4, a.tree, value);
      Success((a, next))
  }

  /** `update(s, stringPart, rest, value)`: test whether `stringPart` is
      already there below `s` (line 1b), then run the loop. The position
      returned is the active point reached. */
  function Update(t: Tree, s: int, stringPart: string, rest: string, value: int, fuel: nat): (res: Result<(Tree, Position), Fault>)
    requires Wf(t) && ValidNode(t, s)
    requires |stringPart| > 0 && |rest| > 0 && rest[0] == stringPart[|stringPart| - 1]
    ensures res.Success? ==> Wf(res.value.0) && ValidNode(res.value.0, res.value.1.node)
    ensures res.Success? ==> Extends(t, res.value.0, value)
    ensures res.Success? ==> res.value.0.root == t.root && res.value.0.last == t.last
    ensures res.Success? ==> Acyclic(t) ==> Acyclic(res.value.0)
    ensures res.Failure? ==> res.error != OutOfOrder
  {
    var c := stringPart[|stringPart| - 1];
    TestAndSplitAcyclic(t, s, stringPart[..|stringPart| - 1], c, rest, value);
    match TestAndSplit(t, s, stringPart[..|stringPart| - 1], c, rest, value)
    case Failure(f) => Failure(f)
    case Success(a) =>
      var res := UpdateLoop(a.tree, s, stringPart, a.node, a.endpoint, t.root, c, rest, value, fuel);
      if res.Success? then
        ExtendsTrans(t, a.tree, res.value.0, value);
        res
      else res
  }

  /** The loop of `addWord` from character `i` on: extend the active text by
      `key[i]`, update, and canonize the active point. The Java update
      loop has no bound. Each of its rounds that does not reach the end
      point inserts one more of the `i + 1` suffixes of `key[..i + 1]`, and
      the active point starts at the root for every key, so the model
      allows `|key| + 1` rounds per character. That this is always enough
      is not proved: `OutOfFuel` stands for a run the model cuts short. */
  function AddWordFrom(t: Tree, key: string, i: nat, s: int, text: string, index: int): (res: Result<(Tree, int), Fault>)
    requires Wf(t) && ValidNode(t, s) && i <= |key|
    ensures res.Success? ==> Wf(res.value.0) && ValidNode(res.value.0, res.value.1)
    ensures res.Success? ==> Extends(t, res.value.0, index)
    ensures res.Success? ==> res.value.0.root == t.root && res.value.0.last == t.last
    ensures res.Success? ==> Acyclic(t) ==> Acyclic(res.value.0)
    ensures res.Failure? ==> res.error != OutOfOrder
    decreases |key| - i
  {
    if i == |key| then Success((t, s))
    else
      var text' := text + [key[i]];
      match Update(t, s, text', key[i..], index, |key| + 1)
      case Failure(f) => Failure(f)
      case Success((t', pos)) =>
        var cp := Canonize(t', pos.node, pos.rest);
        var res := AddWordFrom(t', key, i + 1, cp.node, cp.rest, index);
        if res.Success? then
          ExtendsTrans(t, t', res.value.0, index);
          res
        else res
  }

  /** `addWord(key, index)`: ids must arrive in non-decreasing order; the
      key's suffixes are added one character at a time, and a last leaf
      still without a suffix link is linked to the final active node. */
  function AddWord(t: Tree, key: string, index: int): (r: Result<Tree, Fault>)
    requires Wf(t)
    ensures r == Failure(OutOfOrder) <==> index < t.last
    ensures r.Success? ==> Wf(r.value) && r.value.last == index && r.value.root == t.root
    ensures r.Success? ==> Extends(t, r.value, index)
    ensures r.Success? ==> Acyclic(t) ==> Acyclic(r.value)
  {
    if index < t.last then Failure(OutOfOrder)
    else
      var t0 := t.(last := index, activeLeaf := t.root);
      match AddWordFrom(t0, key, 0, t0.root, [], index)
      case Failure(f) => Failure(f)
      case Success((t', s)) =>
        var leaf := t'.activeLeaf;
        var t'' := if t'.nodes[leaf].suffix == -1 && leaf != t'.root && leaf != s
                   then LinkUnlessRoot(t', leaf, s) else t';
        SameIdsExtends(t', t'', index);
        ExtendsTrans(t, t', t'', index);
        AcyclicSameEdges(t, t0);
        AcyclicSameEdges(t', t'');
        Success(t'')
  }

  // ---- acyclicity ----

  /** Ranks only depend on the edges, which changing ids and links leaves
      alone. */
  lemma {:induction false} RankedSameEdges(t: Tree, t': Tree, rank: seq<int>)
    requires Ranked(t, rank)
    requires |t'.nodes| == |t.nodes| && t'.edges == t.edges
    requires forall m :: 0 <= m < |t.nodes| ==> t'.nodes[m].edges == t.nodes[m].edges
    ensures Ranked(t', rank)
  {
    forall n, k | 0 <= n < |t'.nodes| && k in t'.nodes[n].edges
      ensures ValidEdge(t', t'.nodes[n].edges[k]) && ValidNode(t', t'.edges[t'.nodes[n].edges[k]].dest)
      ensures rank[n] < rank[t'.edges[t'.nodes[n].edges[k]].dest]
    {
      assert t'.nodes[n].edges == t.nodes[n].edges;
    }
  }

  /** The ranks after splitting edge `g` from `s` to `d`: every rank from
      `d`'s up moves one higher, and the new node takes `d`'s old rank, so
      it sits between `s` and `d`. */
  ghost function SplitRank(rank: seq<int>, d: int): seq<int>
    requires 0 <= d < |rank|
  {
    seq(|rank|, m requires 0 <= m < |rank| => if rank[m] >= rank[d] then rank[m] + 1 else rank[m]) + [rank[d]]
  }

  /** A split keeps the arena ranked. */
  lemma {:induction false} SplitRanked(t: Tree, s: int, k: char, head: string, t': Tree, rank: seq<int>)
    requires Wf(t) && ValidNode(t, s) && k in t.nodes[s].edges
    requires 0 < |head| < |t.edges[t.nodes[s].edges[k]].text| && head[0] == k
    requires SplitShape(t, s, k, head, t') && Ranked(t, rank)
    ensures Ranked(t', SplitRank(rank, t.edges[t.nodes[s].edges[k]].dest))
  {
    var g := t.nodes[s].edges[k];
    var d := t.edges[g].dest;
    var rank' := SplitRank(rank, d);
    forall a, ka | 0 <= a < |t'.nodes| && ka in t'.nodes[a].edges
      ensures ValidEdge(t', t'.nodes[a].edges[ka]) && ValidNode(t', t'.edges[t'.nodes[a].edges[ka]].dest)
      ensures rank'[a] < rank'[t'.edges[t'.nodes[a].edges[ka]].dest]
    {
      SplitRef(t, s, k, head, t', a, ka);
      var x := t'.nodes[a].edges[ka];
      if x == |t.edges| {
        assert rank[s] < rank[d];
      } else if x == g {
      } else {
        assert t'.edges[x] == t.edges[x];
        assert rank[a] < rank[t.edges[x].dest];
      }
    }
  }

  /** A new leaf, ranked above every existing node, keeps the arena
      ranked. */
  lemma {:induction false} LeafRanked(t: Tree, r: int, c: char, rest: string, value: int, t': Tree, rank: seq<int>)
    requires Wf(t) && ValidNode(t, r) && c !in t.nodes[r].edges
    requires LeafShape(t, r, c, rest, value, t') && Ranked(t, rank)
    ensures Ranked(t', rank + [|t.nodes|])
  {
    var rank' := rank + [|t.nodes|];
    forall a, ka | 0 <= a < |t'.nodes| && ka in t'.nodes[a].edges
      ensures ValidEdge(t', t'.nodes[a].edges[ka]) && ValidNode(t', t'.edges[t'.nodes[a].edges[ka]].dest)
      ensures rank'[a] < rank'[t'.edges[t'.nodes[a].edges[ka]].dest]
    {
      NewLeafRef(t, r, c, rest, value, t', a, ka);
    }
  }

  lemma {:induction false} InsideEdgeRanked(t: Tree, s: int, str: string, c: char, rank: seq<int>) returns (rank': seq<int>)
    requires Wf(t) && ValidNode(t, s) && str != [] && Ranked(t, rank)
    requires InsideEdge(t, s, str, c).Success?
    ensures Ranked(InsideEdge(t, s, str, c).value.tree, rank')
  {
    var g := t.nodes[s].edges[str[0]];
    var whole := t.edges[g].text;
    if |whole| > |str| && whole[|str|] == c {
      rank' := rank;
    } else {
      SplitArenaShape(t, s, str[0], str, {});
      SplitRanked(t, s, str[0], str, SplitArena(t, s, str[0], str, {}), rank);
      rank' := SplitRank(rank, t.edges[g].dest);
    }
  }

  lemma {:induction false} AtNodeRanked(t: Tree, s: int, c: char, remainder: string, value: int, rank: seq<int>) returns (rank': seq<int>)
    requires Wf(t) && ValidNode(t, s) && |remainder| > 0 && Ranked(t, rank)
    ensures Ranked(AtNode(t, s, c, remainder, value).value.tree, rank')
  {
    rank' := rank;
    if c in t.nodes[s].edges {
      var e := t.nodes[s].edges[c];
      var whole := t.edges[e].text;
      if remainder == whole {
        RankedSameEdges(t, AddIndex(t, t.edges[e].dest, value), rank);
      } else if !StartsWith(remainder, whole) && StartsWith(whole, remainder) {
        SplitArenaShape(t, s, c, remainder, {value});
        SplitRanked(t, s, c, remainder, SplitArena(t, s, c, remainder, {value}), rank);
        rank' := SplitRank(rank, t.edges[e].dest);
      }
    }
  }

  /** `testAndSplit` keeps the arena ranked. */
  lemma {:induction false} TestAndSplitRanked(t: Tree, s2: int, sp: string, c: char, remainder: string, value: int,
                                             rank: seq<int>) returns (rank': seq<int>)
    requires Wf(t) && ValidNode(t, s2) && |remainder| > 0 && Ranked(t, rank)
    requires TestAndSplit(t, s2, sp, c, remainder, value).Success?
    ensures Ranked(TestAndSplit(t, s2, sp, c, remainder, value).value.tree, rank')
  {
    var pos := Canonize(t, s2, sp);
    if pos.rest != [] {
      rank' := InsideEdgeRanked(t, pos.node, pos.rest, c, rank);
    } else {
      rank' := AtNodeRanked(t, pos.node, c, remainder, value, rank);
    }
  }

  /** Hanging a new leaf under `r`, or finding the one there, keeps the
      arena ranked. */
  lemma {:induction false} AttachLeafRanked(t: Tree, r: int, c: char, rest: string, value: int, rank: seq<int>)
    returns (rank': seq<int>)
    requires Wf(t) && ValidNode(t, r) && |rest| > 0 && rest[0] == c && Ranked(t, rank)
    ensures Ranked(AttachLeaf(t, r, c, rest, value).0, rank')
  {
    if c in t.nodes[r].edges {
      rank' := rank;
    } else {
      var t' := Tree(t.nodes[r := AddEdge(t.nodes[r], c, |t.edges|)] + [Node({value}, map[], -1)],
                     t.edges + [Edge(rest, |t.nodes|)], t.last, t.root, t.activeLeaf);
      assert AttachLeaf(t, r, c, rest, value).0 == t';
      LeafRanked(t, r, c, rest, value, t', rank);
      rank' := rank + [|t.nodes|];
    }
  }

  /** Lines 3-5 of the update loop keep the arena ranked. */
  lemma {:induction false} GrowRanked(t: Tree, r: int, oldroot: int, c: char, rest: string, value: int,
                                     rank: seq<int>) returns (rank': seq<int>)
    requires Wf(t) && ValidNode(t, r) && ValidNode(t, oldroot)
    requires |rest| > 0 && rest[0] == c && Ranked(t, rank)
    ensures Ranked(Grow(t, r, oldroot, c, rest, value), rank')
  {
    var (t1, leaf) := AttachLeaf(t, r, c, rest, value);
    rank' := AttachLeafRanked(t, r, c, rest, value, rank);
    var t2 := LinkUnlessRoot(t1, t1.activeLeaf, leaf);
    var t3 := t2.(activeLeaf := leaf);
    RelinkWf(t2, t3);
    var t4 := LinkUnlessRoot(t3, oldroot, r);
    RankedSameEdges(t1, t2, rank');
    RankedSameEdges(t2, t3, rank');
    RankedSameEdges(t3, t4, rank');
  }

  /** Changing ids and links keeps an arena acyclic. */
  lemma {:induction false} AcyclicSameEdges(t: Tree, t': Tree)
    requires |t'.nodes| == |t.nodes| && t'.edges == t.edges
    requires forall m :: 0 <= m < |t.nodes| ==> t'.nodes[m].edges == t.nodes[m].edges
    ensures Acyclic(t) ==> Acyclic(t')
  {
    if Acyclic(t) {
      var rank :| Ranked(t, rank);
      RankedSameEdges(t, t', rank);
    }
  }

  /** Lines 3-5 of the update loop keep the arena acyclic. */
  lemma {:induction false} GrowAcyclic(t: Tree, r: int, oldroot: int, c: char, rest: string, value: int)
    requires Wf(t) && ValidNode(t, r) && ValidNode(t, oldroot)
    requires |rest| > 0 && rest[0] == c
    ensures Acyclic(t) ==> Acyclic(Grow(t, r, oldroot, c, rest, value))
  {
    if Acyclic(t) {
      var rank :| Ranked(t, rank);
      var rank' := GrowRanked(t, r, oldroot, c, rest, value, rank);
    }
  }

  /** `testAndSplit` keeps the arena acyclic. */
  lemma {:induction false} TestAndSplitAcyclic(t: Tree, s2: int, sp: string, c: char, remainder: string, value: int)
    requires Wf(t) && ValidNode(t, s2) && |remainder| > 0
    ensures TestAndSplit(t, s2, sp, c, remainder, value).Success? && Acyclic(t) ==>
            Acyclic(TestAndSplit(t, s2, sp, c, remainder, value).value.tree)
  {
    if TestAndSplit(t, s2, sp, c, remainder, value).Success? && Acyclic(t) {
      var rank :| Ranked(t, rank);
      var rank' := TestAndSplitRanked(t, s2, sp, c, remainder, value, rank);
    }
  }
}
