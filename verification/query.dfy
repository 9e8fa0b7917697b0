/** Queries on the suffix tree: `searchNode`, `search` and `match`. Each
    walks a single path from the root, choosing at every node the one edge
    whose label starts with the next character, and never backtracks. */
module Query {
  import opened Outcomes
  import opened Strings
  import opened GstNode
  import opened Arena

  /** The edge of `cur` keyed by `c`, with what the invariant says of it. */
  function EdgeFor(t: Tree, cur: int, c: char): (e: int)
    requires Walkable(t) && ValidNode(t, cur) && c in t.nodes[cur].edges
    ensures e == t.nodes[cur].edges[c] && ValidEdge(t, e)
    ensures |t.edges[e].text| > 0 && t.edges[e].text[0] == c
    ensures ValidNode(t, t.edges[e].dest)
  {
    t.nodes[cur].edges[c]
  }

  /** The `n` characters of `w` from position `i` are the first `n` of `l`. */
  predicate Matches(w: string, i: int, l: string, n: int)
  {
    0 <= i && 0 <= n <= |l| && i + n <= |w| && forall k :: 0 <= k < n ==> w[i + k] == l[k]
  }

  /** `w[i..j]` can be read from node `cur`: its characters follow whole
      edge labels and end at or inside the last edge taken. A node has at
      most one edge per leading character, so there is only one way to try. */
  ghost predicate ReadsAt(t: Tree, cur: int, w: string, i: int, j: int)
    requires Walkable(t) && ValidNode(t, cur) && 0 <= i <= j <= |w|
    decreases j - i
  {
    i == j ||
    (w[i] in t.nodes[cur].edges &&
     var e := EdgeFor(t, cur, w[i]);
     var l := t.edges[e].text;
     if j - i <= |l| then Matches(w, i, l, j - i)
     else Matches(w, i, l, |l|) && ReadsAt(t, t.edges[e].dest, w, i + |l|, j))
  }

  /** The whole of `x` can be read from `cur`. */
  ghost predicate Reads(t: Tree, cur: int, x: string)
    requires Walkable(t) && ValidNode(t, cur)
  {
    ReadsAt(t, cur, x, 0, |x|)
  }

  /** What can be read is closed under taking prefixes. */
  lemma {:induction false} ReadsAtPrefix(t: Tree, cur: int, w: string, i: int, j: int, j': int)
    requires Walkable(t) && ValidNode(t, cur) && 0 <= i <= j' <= j <= |w|
    requires ReadsAt(t, cur, w, i, j)
    ensures ReadsAt(t, cur, w, i, j')
    decreases j - i
  {
    if i < j' {
      var e := EdgeFor(t, cur, w[i]);
      var l := t.edges[e].text;
      if j' - i > |l| {
        ReadsAtPrefix(t, t.edges[e].dest, w, i + |l|, j, j');
      }
    }
  }

  // ---- the same notion phrased with paths ----

  /** `u` is empty or a prefix of the label of some edge of node `n`. */
  ghost predicate EndsOn(t: Tree, n: int, u: string)
  {
    u == [] ||
    (ValidNode(t, n) &&
     exists e :: e in t.nodes[n].edges.Values && ValidEdge(t, e) && StartsWith(t.edges[e].text, u))
  }

  /** `x` is the labels of a path from `cur` followed by a prefix of the
      label of one more edge. */
  ghost predicate InTree(t: Tree, cur: int, x: string)
  {
    exists p, u :: IsPath(t, cur, p) && x == Labels(t, p) + u && EndsOn(t, PathEnd(t, cur, p), u)
  }

  /** Reading and following a path agree. */
  lemma {:induction false} ReadsIffInTree(t: Tree, cur: int, x: string)
    requires Walkable(t) && ValidNode(t, cur)
    ensures Reads(t, cur, x) <==> InTree(t, cur, x)
  {
    assert x[0..|x|] == x;
    if Reads(t, cur, x) {
      ReadsGivesPath(t, cur, x, 0, |x|);
    }
    if InTree(t, cur, x) {
      var p, u :| IsPath(t, cur, p) && x == Labels(t, p) + u && EndsOn(t, PathEnd(t, cur, p), u);
      PathGivesReads(t, cur, p, u);
    }
  }

  /** Prefixing the label of an edge of `cur` to a string found below
      the edge gives a string found from `cur`. */
  lemma {:induction false} InTreeCons(t: Tree, cur: int, e: int, rest: string)
    requires Walkable(t) && ValidNode(t, cur) && ValidEdge(t, e) && e in t.nodes[cur].edges.Values
    requires InTree(t, t.edges[e].dest, rest)
    ensures InTree(t, cur, t.edges[e].text + rest)
  {
    var p, u :| IsPath(t, t.edges[e].dest, p) && rest == Labels(t, p) + u &&
                EndsOn(t, PathEnd(t, t.edges[e].dest, p), u);
    ConsPath(t, cur, e, p);
    assert t.edges[e].text + rest == Labels(t, [e] + p) + u;
  }

  /** A prefix of the label of an edge of `cur` is found from `cur`. */
  lemma {:induction false} InTreeOnEdge(t: Tree, cur: int, e: int, x: string)
    requires ValidNode(t, cur) && ValidEdge(t, e) && e in t.nodes[cur].edges.Values
    requires StartsWith(t.edges[e].text, x)
    ensures InTree(t, cur, x)
  {
    var none: seq<int> := [];
    assert IsPath(t, cur, none) && PathEnd(t, cur, none) == cur && Labels(t, none) == [];
    assert x == Labels(t, none) + x;
    assert EndsOn(t, cur, x);
  }

  lemma {:induction false} ReadsGivesPath(t: Tree, cur: int, w: string, i: int, j: int)
    requires Walkable(t) && ValidNode(t, cur) && 0 <= i <= j <= |w|
    requires ReadsAt(t, cur, w, i, j)
    ensures InTree(t, cur, w[i..j])
    decreases j - i
  {
    if i == j {
      var none: seq<int> := [];
      assert IsPath(t, cur, none) && w[i..j] == Labels(t, none) + [] && EndsOn(t, PathEnd(t, cur, none), []);
    } else {
      var e := EdgeFor(t, cur, w[i]);
      var l := t.edges[e].text;
      assert e in t.nodes[cur].edges.Values;
      if j - i <= |l| {
        assert w[i..j] == l[..j - i];
        InTreeOnEdge(t, cur, e, w[i..j]);
      } else {
        ReadsGivesPath(t, t.edges[e].dest, w, i + |l|, j);
        assert w[i..j] == l + w[i + |l|..j];
        InTreeCons(t, cur, e, w[i + |l|..j]);
      }
    }
  }

  lemma {:induction false} PathGivesReads(t: Tree, cur: int, p: seq<int>, u: string)
    requires Walkable(t) && ValidNode(t, cur) && IsPath(t, cur, p)
    requires EndsOn(t, PathEnd(t, cur, p), u)
    ensures Reads(t, cur, Labels(t, p) + u)
    decreases |p|
  {
    if |p| == 0 {
      assert Labels(t, p) + u == u;
      EndsOnReads(t, cur, u);
    } else {
      var g := p[0];
      var d := t.edges[g].dest;
      PathGivesReads(t, d, p[1..], u);
      assert Labels(t, p) + u == t.edges[g].text + (Labels(t, p[1..]) + u);
      ReadsBehindEdge(t, cur, g, Labels(t, p[1..]) + u);
    }
  }

  /** A prefix of the label of an edge of `cur` can be read from `cur`. */
  lemma {:induction false} EndsOnReads(t: Tree, cur: int, u: string)
    requires Walkable(t) && ValidNode(t, cur) && EndsOn(t, cur, u)
    ensures Reads(t, cur, u)
  {
    if u != [] {
      var e :| e in t.nodes[cur].edges.Values && ValidEdge(t, e) && StartsWith(t.edges[e].text, u);
      var k :| k in t.nodes[cur].edges && t.nodes[cur].edges[k] == e;
      assert k == u[0];
      assert Matches(u, 0, t.edges[e].text, |u|);
    }
  }

  /** What can be read below an edge of `cur`, behind that edge's label,
      can be read from `cur`. */
  lemma {:induction false} ReadsBehindEdge(t: Tree, cur: int, g: int, y: string)
    requires Walkable(t) && ValidNode(t, cur) && ValidEdge(t, g) && g in t.nodes[cur].edges.Values
    requires Reads(t, t.edges[g].dest, y)
    ensures Reads(t, cur, t.edges[g].text + y)
  {
    var x := t.edges[g].text + y;
    var l := t.edges[g].text;
    var k :| k in t.nodes[cur].edges && t.nodes[cur].edges[k] == g;
    assert x[0] == k;
    assert Matches(x, 0, l, |l|);
    if |x| > |l| {
      assert x[|l|..] == y;
      ReadsAtShift(t, t.edges[g].dest, y, x, |l|);
    }
  }

  /** Reading depends only on the characters read. */
  lemma {:induction false} ReadsAtShift(t: Tree, cur: int, y: string, x: string, off: nat)
    requires Walkable(t) && ValidNode(t, cur) && off + |y| == |x| && x[off..] == y
    ensures ReadsAt(t, cur, y, 0, |y|) ==> ReadsAt(t, cur, x, off, |x|)
  {
    ReadsAtShiftFrom(t, cur, y, x, off, 0);
  }

  lemma {:induction false} MatchesShift(x: string, y: string, off: nat, i: nat, l: string, n: nat)
    requires off <= |x| && x[off..] == y && Matches(y, i, l, n)
    ensures Matches(x, off + i, l, n)
  {
    forall k | 0 <= k < n ensures x[off + i + k] == l[k] {
      assert x[off..][i + k] == y[i + k];
    }
  }

  lemma {:induction false} ReadsAtShiftFrom(t: Tree, cur: int, y: string, x: string, off: nat, i: nat)
    requires Walkable(t) && ValidNode(t, cur) && off + |y| == |x| && x[off..] == y && i <= |y|
    ensures ReadsAt(t, cur, y, i, |y|) ==> ReadsAt(t, cur, x, off + i, |x|)
    decreases |y| - i
  {
    if i < |y| && ReadsAt(t, cur, y, i, |y|) {
      assert x[off + i] == x[off..][i] == y[i];
      var e := EdgeFor(t, cur, y[i]);
      var l := t.edges[e].text;
      if |y| - i > |l| {
        MatchesShift(x, y, off, i, l, |l|);
        ReadsAtShiftFrom(t, t.edges[e].dest, y, x, off, i + |l|);
      } else {
        MatchesShift(x, y, off, i, l, |y| - i);
      }
    }
  }

  // ---- searchNode / search ----

  function Min(a: int, b: int): int
  {
    if a <= b then a else b
  }

  /** `String.regionMatches(i, l, 0, len)`. */
  function RegionMatches(w: string, i: nat, l: string, len: nat): (b: bool)
    requires i + len <= |w| && len <= |l|
    ensures b <==> Matches(w, i, l, len)
  {
    RegionMatchesMeaning(w, i, l, len);
    w[i..i + len] == l[..len]
  }

  lemma {:induction false} RegionMatchesMeaning(w: string, i: nat, l: string, len: nat)
    requires i + len <= |w| && len <= |l|
    ensures w[i..i + len] == l[..len] <==> Matches(w, i, l, len)
  {
    if w[i..i + len] == l[..len] {
      forall k | 0 <= k < len ensures w[i + k] == l[k] {
        assert w[i..i + len][k] == l[..len][k];
      }
    }
    if Matches(w, i, l, len) {
      assert forall k | 0 <= k < len :: w[i..i + len][k] == l[..len][k];
    }
  }

  /** The loop of `searchNode` from node `cur` at position `i` of `w`. */
  function SearchFrom(t: Tree, cur: int, w: string, i: nat): (r: Option<int>)
    requires Walkable(t) && ValidNode(t, cur) && i <= |w|
    ensures r.Some? <==> i < |w| && ReadsAt(t, cur, w, i, |w|)
    ensures r.Some? ==> ValidNode(t, r.value)
    decreases |w| - i
  {
    if i >= |w| then None
    else
      var e := GetEdge(t.nodes[cur], w[i]);
      if e == -1 then None
      else
        var l := t.edges[EdgeFor(t, cur, w[i])].text;
        var len := Min(|w| - i, |l|);
        if !RegionMatches(w, i, l, len) then None
        else if |l| >= |w| - i then Some(t.edges[e].dest)
        else SearchFrom(t, t.edges[e].dest, w, i + len)
  }

  /** `searchNode(word)`: the node at the end of the edge on which `word`
      ends, or nothing when `word` is empty or cannot be read from the
      root. */
  function SearchNode(t: Tree, w: string): (r: Option<int>)
    requires Wf(t)
    ensures r.Some? <==> w != [] && Reads(t, t.root, w)
    ensures r.Some? ==> ValidNode(t, r.value)
  {
    SearchFrom(t, t.root, w, 0)
  }

  /** `search(word)`: the ids of the node `searchNode` finds, or `null`. */
  function Search(t: Tree, w: string): (r: Option<set<int>>)
    requires Wf(t)
    ensures r.Some? <==> w != [] && Reads(t, t.root, w)
    ensures r.Some? ==> SearchNode(t, w).Some? && r.value == t.nodes[SearchNode(t, w).value].ids
  {
    match SearchNode(t, w)
    case None => None
    case Some(d) => Some(t.nodes[d].ids)
  }

  /** `p` is a path from `cur` to `d` whose labels start with `x`, and `x`
      ends inside the last label. */
  ghost predicate LandsAt(t: Tree, cur: int, p: seq<int>, x: string, d: int)
  {
    && IsPath(t, cur, p) && |p| > 0
    && PathEnd(t, cur, p) == d
    && StartsWith(Labels(t, p), x) && |Labels(t, p[..|p| - 1])| < |x|
  }

  /** The node `searchNode` returns is the end of the path on which the
      word ends. */
  lemma {:induction false} SearchFromLands(t: Tree, cur: int, w: string, i: nat) returns (p: seq<int>)
    requires Walkable(t) && ValidNode(t, cur) && i <= |w|
    requires SearchFrom(t, cur, w, i).Some?
    ensures LandsAt(t, cur, p, w[i..], SearchFrom(t, cur, w, i).value)
    decreases |w| - i
  {
    SearchFirstEdge(t, cur, w, i);
    var edge := t.edges[EdgeFor(t, cur, w[i])];
    if |edge.text| >= |w| - i {
      SearchLastEdge(t, cur, w, i);
      p := LandsOnLast(t, cur, w, i);
    } else {
      SearchInnerEdge(t, cur, w, i);
      var q := SearchFromLands(t, edge.dest, w, i + |edge.text|);
      p := LandsStep(t, cur, w, i, q, SearchFrom(t, edge.dest, w, i + |edge.text|).value);
    }
  }

  /** A word whose rest ends inside the label of the edge for its next
      character lands at that edge's end. */
  lemma {:induction false} LandsOnLast(t: Tree, cur: int, w: string, i: nat) returns (p: seq<int>)
    requires Walkable(t) && ValidNode(t, cur) && i < |w| && w[i] in t.nodes[cur].edges
    requires var l := t.edges[EdgeFor(t, cur, w[i])].text; |l| >= |w| - i && Matches(w, i, l, |w| - i)
    ensures LandsAt(t, cur, p, w[i..], t.edges[EdgeFor(t, cur, w[i])].dest)
    ensures Labels(t, p) == t.edges[EdgeFor(t, cur, w[i])].text
  {
    var e := EdgeFor(t, cur, w[i]);
    assert e in t.nodes[cur].edges.Values;
    MatchesToEnd(w, i, t.edges[e].text);
    LandsOnEdge(t, cur, e, w[i..]);
    var none: seq<int> := [];
    ConsPath(t, cur, e, none);
    assert [e] + none == [e];
    p := [e];
  }

  /** A path on which the rest of the word lands, behind the edge for its
      first character, gives a path on which the whole word lands. */
  lemma {:induction false} LandsStep(t: Tree, cur: int, w: string, i: nat, q: seq<int>, x: int) returns (p: seq<int>)
    requires Walkable(t) && ValidNode(t, cur) && i < |w| && w[i] in t.nodes[cur].edges
    requires |t.edges[EdgeFor(t, cur, w[i])].text| < |w| - i
    requires Matches(w, i, t.edges[EdgeFor(t, cur, w[i])].text, |t.edges[EdgeFor(t, cur, w[i])].text|)
    requires var edge := t.edges[EdgeFor(t, cur, w[i])];
      LandsAt(t, edge.dest, q, w[i + |edge.text|..], x)
    ensures LandsAt(t, cur, p, w[i..], x)
    ensures Labels(t, p) == t.edges[EdgeFor(t, cur, w[i])].text + Labels(t, q)
  {
    var e := EdgeFor(t, cur, w[i]);
    var l := t.edges[e].text;
    assert e in t.nodes[cur].edges.Values;
    assert w[i..] == l + w[i + |l|..] by {
      assert w[i..i + |l|] == l;
      assert w[i..] == w[i..i + |l|] + w[i + |l|..];
    }
    LandsCons(t, cur, e, q, w[i + |l|..], x);
    ConsPath(t, cur, e, q);
    p := [e] + q;
  }

  /** When `searchNode`'s loop finds something, the word has an edge for
      its next character and agrees with that edge's label. */
  lemma {:induction false} SearchFirstEdge(t: Tree, cur: int, w: string, i: nat)
    requires Walkable(t) && ValidNode(t, cur) && i <= |w| && SearchFrom(t, cur, w, i).Some?
    ensures i < |w| && w[i] in t.nodes[cur].edges
    ensures var l := t.edges[EdgeFor(t, cur, w[i])].text; Matches(w, i, l, Min(|w| - i, |l|))
  {
  }

  /** The loop stops on an edge whose label covers the rest of the word,
      returning the edge's end. */
  lemma {:induction false} SearchLastEdge(t: Tree, cur: int, w: string, i: nat)
    requires Walkable(t) && ValidNode(t, cur) && i < |w| && w[i] in t.nodes[cur].edges
    requires var l := t.edges[EdgeFor(t, cur, w[i])].text; |l| >= |w| - i && Matches(w, i, l, |w| - i)
    ensures SearchFrom(t, cur, w, i) == Some(t.edges[EdgeFor(t, cur, w[i])].dest)
  {
    var e := GetEdge(t.nodes[cur], w[i]);
    assert e == EdgeFor(t, cur, w[i]);
    var l := t.edges[EdgeFor(t, cur, w[i])].text;
    assert Min(|w| - i, |l|) == |w| - i;
    assert RegionMatches(w, i, l, |w| - i);
  }

  /** The same step for `searchNode`: it goes on from the edge's end. */
  lemma {:induction false} SearchInnerEdge(t: Tree, cur: int, w: string, i: nat)
    requires Walkable(t) && ValidNode(t, cur) && i < |w| && w[i] in t.nodes[cur].edges
    requires var l := t.edges[EdgeFor(t, cur, w[i])].text; |l| < |w| - i && Matches(w, i, l, |l|)
    ensures var edge := t.edges[EdgeFor(t, cur, w[i])];
      SearchFrom(t, cur, w, i) == SearchFrom(t, edge.dest, w, i + |edge.text|)
  {
    var e := GetEdge(t.nodes[cur], w[i]);
    assert e == EdgeFor(t, cur, w[i]);
    var l := t.edges[EdgeFor(t, cur, w[i])].text;
    var len := Min(|w| - i, |l|);
    assert len == |l|;
    assert RegionMatches(w, i, l, len);
    assert SearchFrom(t, cur, w, i) == SearchFrom(t, t.edges[e].dest, w, i + len);
  }

  /** A label the word agrees with up to the word's end starts with the
      rest of the word. */
  lemma {:induction false} MatchesToEnd(w: string, i: nat, l: string)
    requires i < |w| && Matches(w, i, l, |w| - i)
    ensures StartsWith(l, w[i..]) && w[i..] != []
  {
    assert w[i..] == l[..|w| - i];
  }

  /** A whole label the word agrees with is followed by the rest of the
      word. */
  lemma {:induction false} MatchesThenRest(w: string, i: nat, l: string)
    requires i + |l| <= |w| && Matches(w, i, l, |l|)
    ensures w[i..] == l + w[i + |l|..]
  {
    assert w[i..i + |l|] == l;
    assert w[i..] == w[i..i + |l|] + w[i + |l|..];
  }

  lemma {:induction false} LandsOnEdge(t: Tree, cur: int, e: int, x: string)
    requires ValidNode(t, cur) && ValidEdge(t, e) && e in t.nodes[cur].edges.Values
    requires StartsWith(t.edges[e].text, x) && x != []
    ensures LandsAt(t, cur, [e], x, t.edges[e].dest)
  {
    var none: seq<int> := [];
    ConsPath(t, cur, e, none);
    assert [e] + none == [e] && [e][..0] == none;
  }

  lemma {:induction false} LandsCons(t: Tree, cur: int, e: int, q: seq<int>, rest: string, d: int)
    requires ValidNode(t, cur) && ValidEdge(t, e) && e in t.nodes[cur].edges.Values
    requires LandsAt(t, t.edges[e].dest, q, rest, d)
    ensures LandsAt(t, cur, [e] + q, t.edges[e].text + rest, d)
  {
    PathPrefix(t, t.edges[e].dest, q, |q| - 1);
    ConsPath(t, cur, e, q);
    ConsPath(t, cur, e, q[..|q| - 1]);
    var p := [e] + q;
    assert p[..|p| - 1] == [e] + q[..|q| - 1];
  }

  // ---- match ----

  /** The inner loop of `match` over the label `l`, from its position `j`:
      how many characters of `l` agree with `w` from position `i`. */
  function CommonPrefix(w: string, i: nat, l: string, j: nat): (k: nat)
    requires j <= |l| && Matches(w, i, l, j)
    ensures j <= k && Matches(w, i, l, k)
    ensures k < |l| && i + k < |w| ==> w[i + k] != l[k]
    decreases |l| - j
  {
    if j >= |l| || i + j >= |w| || w[i + j] != l[j] then j
    else CommonPrefix(w, i, l, j + 1)
  }

  /** The loop of `match` from node `cur` at position `i`: the end of the
      longest stretch of `w` from `i` that can be read from `cur`. */
  function MatchFrom(t: Tree, cur: int, w: string, i: nat): (j: nat)
    requires Walkable(t) && ValidNode(t, cur) && i <= |w|
    ensures i <= j <= |w|
    ensures ReadsAt(t, cur, w, i, j)
    ensures j == |w| || !ReadsAt(t, cur, w, i, j + 1)
    decreases |w| - i
  {
    if i >= |w| then i
    else
      var e := GetEdge(t.nodes[cur], w[i]);
      if e == -1 then i
      else
        var l := t.edges[EdgeFor(t, cur, w[i])].text;
        var k := CommonPrefix(w, i, l, 0);
        if k < |l| then i + k
        else MatchFrom(t, t.edges[e].dest, w, i + k)
  }

  /** `match(word)`: the longest prefix of `word` that can be read from the
      root. */
  function Match(t: Tree, w: string): (r: string)
    requires Wf(t)
    ensures |r| <= |w| && r == w[..|r|]
    ensures ReadsAt(t, t.root, w, 0, |r|)
    ensures forall k :: |r| < k <= |w| ==> !ReadsAt(t, t.root, w, 0, k)
  {
    var n := MatchFrom(t, t.root, w, 0);
    forall k | n < k <= |w| ensures !ReadsAt(t, t.root, w, 0, k) {
      if ReadsAt(t, t.root, w, 0, k) {
        ReadsAtPrefix(t, t.root, w, 0, k, n + 1);
      }
    }
    w[..n]
  }
}
