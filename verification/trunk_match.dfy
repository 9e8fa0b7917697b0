/** The walk of the trunk draft's `match`. */
module TrunkWalk {
  import opened Outcomes
  import opened GstNode
  import opened Arena
  import opened Query

  /** The trunk `match` from node `cur` at position `i` of `w`: the whole
      labels of the edges walked, or `null` on a missing edge or a label
      that disagrees with `w`. */
  function MatchLabelsFrom(t: Tree, cur: int, w: string, i: nat): Option<string>
    requires Walkable(t) && ValidNode(t, cur) && i <= |w|
    decreases |w| - i
  {
    if i >= |w| then None
    else
      var e := GetEdge(t.nodes[cur], w[i]);
      if e == -1 then None
      else
        var edge := t.edges[EdgeFor(t, cur, w[i])];
        if !RegionMatches(w, i, edge.text, Min(|w| - i, |edge.text|)) then None
        else if |edge.text| >= |w| - i then Some(edge.text)
        else
          var rest := MatchLabelsFrom(t, edge.dest, w, i + |edge.text|);
          if rest.None? then None else Some(edge.text + rest.value)
  }

  /** Below an edge whose whole label the word goes past, `match` is the
      label followed by what `match` gives from the edge's end. */
  lemma {:induction false} MatchInnerEdge(t: Tree, cur: int, w: string, i: nat)
    requires Walkable(t) && ValidNode(t, cur) && i < |w| && w[i] in t.nodes[cur].edges
    requires var l := t.edges[EdgeFor(t, cur, w[i])].text; |l| < |w| - i && Matches(w, i, l, |l|)
    ensures var edge := t.edges[EdgeFor(t, cur, w[i])];
      var rest := MatchLabelsFrom(t, edge.dest, w, i + |edge.text|);
      MatchLabelsFrom(t, cur, w, i) == if rest.None? then None else Some(edge.text + rest.value)
  {
    var edge := t.edges[EdgeFor(t, cur, w[i])];
    assert GetEdge(t.nodes[cur], w[i]) != -1;
    assert Min(|w| - i, |edge.text|) == |edge.text|;
    assert RegionMatches(w, i, edge.text, |edge.text|);
  }

  /** When `match` finds something, the word has an edge for its next
      character and the word agrees with that edge's label. */
  lemma {:induction false} MatchFirstEdge(t: Tree, cur: int, w: string, i: nat)
    requires Walkable(t) && ValidNode(t, cur) && i <= |w|
    requires MatchLabelsFrom(t, cur, w, i).Some?
    ensures i < |w| && w[i] in t.nodes[cur].edges
    ensures var l := t.edges[EdgeFor(t, cur, w[i])].text; Matches(w, i, l, Min(|w| - i, |l|))
  {
  }

  /** `match` finds something exactly when `searchNode` does. */
  lemma {:induction false} MatchIffSearch(t: Tree, cur: int, w: string, i: nat)
    requires Walkable(t) && ValidNode(t, cur) && i <= |w|
    ensures MatchLabelsFrom(t, cur, w, i).Some? <==> SearchFrom(t, cur, w, i).Some?
    decreases |w| - i
  {
    if i < |w| && w[i] in t.nodes[cur].edges {
      var edge := t.edges[EdgeFor(t, cur, w[i])];
      if |edge.text| < |w| - i && Matches(w, i, edge.text, |edge.text|) {
        MatchInnerEdge(t, cur, w, i);
        SearchInnerEdge(t, cur, w, i);
        MatchIffSearch(t, edge.dest, w, i + |edge.text|);
      }
    }
  }
}

/** The trunk draft's `match`, which returns the whole labels of the edges
    it walks rather than a prefix of the word, and the `findLongestSubstring`
    helper built on it. */
module TrunkMatching {
  import opened Outcomes
  import opened Strings
  import opened GstNode
  import opened Arena
  import opened Query
  import opened TrunkWalk

  /** The trunk `match(word)`: `null` for an empty word or one no path
      spells; otherwise the labels of the whole edges walked, which `word`
      begins. */
  function TrunkMatch(t: Tree, w: string): (r: Option<string>)
    requires Wf(t)
    ensures r.Some? <==> w != [] && Reads(t, t.root, w)
    ensures r.Some? ==> StartsWith(r.value, w)
  {
    var r := MatchLabelsFrom(t, t.root, w, 0);
    MatchIffSearch(t, t.root, w, 0);
    assert r.Some? ==> StartsWith(r.value, w) by {
      if r.Some? {
        var p := MatchLabelsLands(t, t.root, w, 0);
        assert w[0..] == w;
      }
    }
    r
  }

  /** The labels `match` returns are those of the path `searchNode` walks,
      down to the node it returns. */
  lemma {:induction false} MatchLabelsLands(t: Tree, cur: int, w: string, i: nat) returns (p: seq<int>)
    requires Walkable(t) && ValidNode(t, cur) && i <= |w|
    requires MatchLabelsFrom(t, cur, w, i).Some?
    ensures SearchFrom(t, cur, w, i).Some?
    ensures LandsAt(t, cur, p, w[i..], SearchFrom(t, cur, w, i).value)
    ensures Labels(t, p) == MatchLabelsFrom(t, cur, w, i).value
    decreases |w| - i
  {
    MatchFirstEdge(t, cur, w, i);
    var e := EdgeFor(t, cur, w[i]);
    var l := t.edges[e].text;
    var d := t.edges[e].dest;
    assert e in t.nodes[cur].edges.Values;
    if |l| >= |w| - i {
      p := MatchLastEdge(t, cur, w, i);
    } else {
      MatchInnerEdge(t, cur, w, i);
      SearchInnerEdge(t, cur, w, i);
      var q := MatchLabelsLands(t, d, w, i + |l|);
      p := LandsStep(t, cur, w, i, q, SearchFrom(t, d, w, i + |l|).value);
    }
  }

  /** `match` ends on the first edge taken when its label covers the rest
      of the word. */
  lemma {:induction false} MatchLastEdge(t: Tree, cur: int, w: string, i: nat) returns (p: seq<int>)
    requires Walkable(t) && ValidNode(t, cur) && i < |w| && w[i] in t.nodes[cur].edges
    requires |t.edges[EdgeFor(t, cur, w[i])].text| >= |w| - i
    requires MatchLabelsFrom(t, cur, w, i).Some?
    ensures SearchFrom(t, cur, w, i).Some?
    ensures LandsAt(t, cur, p, w[i..], SearchFrom(t, cur, w, i).value)
    ensures Labels(t, p) == MatchLabelsFrom(t, cur, w, i).value
  {
    var e := EdgeFor(t, cur, w[i]);
    var l := t.edges[e].text;
    assert e in t.nodes[cur].edges.Values;
    assert SearchFrom(t, cur, w, i) == Some(t.edges[e].dest);
    assert MatchLabelsFrom(t, cur, w, i) == Some(l);
    assert w[i..] == l[..|w| - i];
    LandsOnEdge(t, cur, e, w[i..]);
    var none: seq<int> := [];
    ConsPath(t, cur, e, none);
    p := [e];
    assert [e] + none == p;
  }

  /** `match(word)` is the label string of the path to the node
      `searchNode(word)` returns. */
  lemma {:induction false} TrunkMatchLabels(t: Tree, w: string)
    requires Wf(t) && TrunkMatch(t, w).Some?
    ensures SearchNode(t, w).Some?
    ensures exists p :: LandsAt(t, t.root, p, w, SearchNode(t, w).value) &&
                        Labels(t, p) == TrunkMatch(t, w).value
  {
    var p := MatchLabelsLands(t, t.root, w, 0);
    assert w[0..] == w;
  }

  // ---- findLongestSubstring ----

  /** The error `findLongestSubstring` raises: `matched.length()` on the
      `null` the trunk `match` returns. */
  datatype MatchFault = NullMatched

  /** The loop of `findLongestSubstring(tree, word)` as written, from
      position `i`, with the longest match `best` found so far. */
  function LongestAsWritten(t: Tree, w: string, i: nat, best: string): (r: Result<string, MatchFault>)
    requires Wf(t)
    ensures r.Failure? <==> exists j :: i <= j < |w| - 1 && TrunkMatch(t, w[j..]).None?
    decreases |w| - i
  {
    if i + 1 >= |w| then Success(best)
    else
      match TrunkMatch(t, w[i..])
      case None => Failure(NullMatched)
      case Some(m) => LongestAsWritten(t, w, i + 1, if |m| > |best| then m else best)
  }

  /** `findLongestSubstring(tree, word)` as written. */
  function FindLongestAsWritten(t: Tree, w: string): (r: Result<string, MatchFault>)
    requires Wf(t)
    ensures r.Failure? <==> exists j :: 0 <= j < |w| - 1 && TrunkMatch(t, w[j..]).None?
  {
    LongestAsWritten(t, w, 0, "")
  }

  /** On the tree of the constructor, which has nothing but a root, every
      `match` is `null`, so any word of two or more characters throws. */
  lemma {:induction false} NullMatchOnEmptyTree()
    ensures FindLongestAsWritten(EmptyTree(), "ab") == Failure(NullMatched)
  {
    var t := EmptyTree();
    assert !("ab"[0] in t.nodes[t.root].edges);
    assert TrunkMatch(t, "ab"[0..]).None?;
  }

  /** What one start position contributes: the trunk `match` of the
      suffix, with no match counting as the empty string. */
  function MatchedAt(t: Tree, w: string, j: nat): (r: string)
    requires Wf(t) && j <= |w|
    ensures r != [] ==> StartsWith(r, w[j..])
  {
    match TrunkMatch(t, w[j..])
    case None => ""
    case Some(m) => m
  }

  /** The loop of the corrected `findLongestSubstring` from position `i`. */
  function LongestFrom(t: Tree, w: string, i: nat, best: string): (r: string)
    requires Wf(t) && i <= |w|
    ensures |best| <= |r|
    ensures forall j :: i <= j < |w| - 1 ==> |MatchedAt(t, w, j)| <= |r|
    ensures r == best || exists j :: i <= j < |w| - 1 && MatchedAt(t, w, j) == r && |best| < |r| &&
                                     forall k :: i <= k < j ==> |MatchedAt(t, w, k)| < |r|
    decreases |w| - i
  {
    if i + 1 >= |w| then best
    else
      var m := MatchedAt(t, w, i);
      LongestFrom(t, w, i + 1, if |m| > |best| then m else best)
  }

  /** `findLongestSubstring(tree, word)` with a suffix that has no match
      contributing nothing: the first longest match over the start
      positions `0 <= i < |word| - 1`, and "" when there is none. */
  function FindLongest(t: Tree, w: string): (r: string)
    requires Wf(t)
    ensures forall j :: 0 <= j < |w| - 1 ==> |MatchedAt(t, w, j)| <= |r|
    ensures r == "" || exists j :: 0 <= j < |w| - 1 && MatchedAt(t, w, j) == r &&
                                   forall k :: 0 <= k < j ==> |MatchedAt(t, w, k)| < |r|
    ensures |w| <= 1 ==> r == ""
  {
    LongestFrom(t, w, 0, "")
  }

  /** Where the code as written returns a value, the corrected version
      returns the same one. */
  lemma {:induction false} FindLongestAgrees(t: Tree, w: string)
    requires Wf(t) && FindLongestAsWritten(t, w).Success?
    ensures FindLongestAsWritten(t, w).value == FindLongest(t, w)
  {
    LongestAgrees(t, w, 0, "");
  }

  lemma {:induction false} LongestAgrees(t: Tree, w: string, i: nat, best: string)
    requires Wf(t) && i <= |w| && LongestAsWritten(t, w, i, best).Success?
    ensures LongestAsWritten(t, w, i, best).value == LongestFrom(t, w, i, best)
    decreases |w| - i
  {
    if i + 1 < |w| {
      var m := MatchedAt(t, w, i);
      LongestAgrees(t, w, i + 1, if |m| > |best| then m else best);
    }
  }
}
