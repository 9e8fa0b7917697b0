/** The character trie of `rsvp.answering.index.trie`: `TrieNode` and
    `TrieTree`. In the Java code the nodes live in one static list that
    every tree shares, and a tree only keeps the index of its root; the
    model passes that list around as the `nodes` of a `TrieTree`. */
module Trie {
  import opened Outcomes

  // ---- TrieNode ----

  /** A trie node: the character it was created for, its value (the string
      spelled from the root down to it), its children by character, and
      whether a word ends here. */
  datatype TrieNode = TrieNode(ch: char, value: string, children: map<char, nat>, isWord: bool)

  /** `new TrieNode(ch, value)`. */
  function NewNode(c: char, v: string): TrieNode
  {
    TrieNode(c, v, map[], false)
  }

  /** `containsChild(c)`. */
  predicate ContainsChild(n: TrieNode, c: char)
  {
    c in n.children
  }

  /** `getChild(c)`: the index stored under `c`, or -1 when there is none. */
  function GetChild(n: TrieNode, c: char): int
  {
    if c in n.children then n.children[c] else -1
  }

  /** `putChild(c, i)`. */
  function PutChild(n: TrieNode, c: char, i: nat): TrieNode
  {
    n.(children := n.children[c := i])
  }

  /** `setIsWord(b)`. */
  function SetIsWord(n: TrieNode, b: bool): TrieNode
  {
    n.(isWord := b)
  }

  /** A fresh node keeps its constructor arguments, has no child under any
      character and is not a word. */
  lemma {:induction false} FreshNode(c: char, v: string, d: char)
    ensures NewNode(c, v).ch == c && NewNode(c, v).value == v
    ensures GetChild(NewNode(c, v), d) == -1 && !ContainsChild(NewNode(c, v), d)
    ensures !NewNode(c, v).isWord
  {
  }

  /** After `putChild(c, i)`, `c` is a child and `getChild(c)` is `i`; every
      other character answers as before. */
  lemma {:induction false} PutChildThenGet(n: TrieNode, c: char, i: nat, d: char)
    ensures ContainsChild(PutChild(n, c, i), c) && GetChild(PutChild(n, c, i), c) == i
    ensures d != c ==> GetChild(PutChild(n, c, i), d) == GetChild(n, d)
    ensures d != c ==> (ContainsChild(PutChild(n, c, i), d) <==> ContainsChild(n, d))
  {
  }

  /** `getChild` answers -1 exactly for the characters that are not
      children, since only indices of created nodes are ever stored. */
  lemma {:induction false} GetChildMissing(n: TrieNode, c: char)
    ensures GetChild(n, c) == -1 <==> !ContainsChild(n, c)
    ensures ContainsChild(n, c) ==> GetChild(n, c) >= 0
  {
  }

  /** `isWord()` answers what `setIsWord` was last given, and nothing else
      about the node changes. */
  lemma {:induction false} SetIsWordThenIsWord(n: TrieNode, b: bool)
    ensures SetIsWord(n, b).isWord == b
    ensures SetIsWord(n, b).ch == n.ch && SetIsWord(n, b).value == n.value
    ensures SetIsWord(n, b).children == n.children
  {
  }

  // ---- the arena ----

  /** The tree: the shared node list and the index of this tree's root. */
  datatype TrieTree = TrieTree(nodes: seq<TrieNode>, root: nat)

  /** The faults of the public entry points: `getNode` reads `argString[0]`,
      so an empty string raises an array index exception. */
  datatype TrieFault = EmptyString

  /** Every child link of the list points forward to an existing node
      created for the link's character, whose value is the parent's value
      followed by that character. */
  predicate ChildrenWf(nodes: seq<TrieNode>)
  {
    forall m, c :: 0 <= m < |nodes| && c in nodes[m].children ==>
      && m < nodes[m].children[c] < |nodes|
      && nodes[nodes[m].children[c]].ch == c
      && nodes[nodes[m].children[c]].value == nodes[m].value + [c]
  }

  /** The invariant of a tree: the root exists and its value is empty. */
  predicate Wf(t: TrieTree)
  {
    t.root < |t.nodes| && t.nodes[t.root].value == [] && ChildrenWf(t.nodes)
  }

  /** The node reached from `cur` by following the characters of `w`. */
  ghost function Walk(nodes: seq<TrieNode>, cur: nat, w: string): Option<nat>
    decreases |w|
  {
    if w == [] then Some(cur)
    else if cur < |nodes| && w[0] in nodes[cur].children then Walk(nodes, nodes[cur].children[w[0]], w[1..])
    else None
  }

  /** What `getNode` answers for the outcome of a walk. */
  function OrMissing(o: Option<nat>): int
  {
    if o.Some? then o.value else -1
  }

  /** A walk ends at an existing node whose value is the start's value
      followed by the characters walked. */
  lemma {:induction false} WalkValue(nodes: seq<TrieNode>, cur: nat, w: string)
    requires ChildrenWf(nodes) && cur < |nodes| && Walk(nodes, cur, w).Some?
    ensures Walk(nodes, cur, w).value < |nodes|
    ensures nodes[Walk(nodes, cur, w).value].value == nodes[cur].value + w
    ensures Walk(nodes, cur, w).value >= cur
    decreases |w|
  {
    if w != [] {
      var d := nodes[cur].children[w[0]];
      WalkValue(nodes, d, w[1..]);
      assert nodes[cur].value + w == nodes[cur].value + [w[0]] + w[1..];
    }
  }

  /** One step of a walk from position `i` of `w`. */
  lemma {:induction false} WalkStep(nodes: seq<TrieNode>, cur: nat, w: string, i: nat)
    requires i < |w|
    ensures Walk(nodes, cur, w[i..]) ==
            if cur < |nodes| && w[i] in nodes[cur].children then Walk(nodes, nodes[cur].children[w[i]], w[i + 1..])
            else None
  {
    assert w[i..][0] == w[i] && w[i..][1..] == w[i + 1..];
  }

  /** Every prefix of a walked string can be walked as well. */
  lemma {:induction false} WalkPrefix(nodes: seq<TrieNode>, cur: nat, w: string, k: nat)
    requires Walk(nodes, cur, w).Some? && k <= |w|
    ensures Walk(nodes, cur, w[..k]).Some?
    decreases |w|
  {
    if k > 0 {
      var d := nodes[cur].children[w[0]];
      assert w[..k][0] == w[0] && w[..k][1..] == w[1..][..k - 1];
      WalkPrefix(nodes, d, w[1..], k - 1);
    }
  }

  // ---- the tree grows ----

  /** Node `b` is node `a` with possibly more children: its character and
      value are kept, no existing link is overwritten, and every added link
      points at or past `bound`. */
  predicate NodeGrows(a: TrieNode, b: TrieNode, bound: nat)
  {
    && b.ch == a.ch && b.value == a.value
    && (forall c :: c in a.children ==> c in b.children && b.children[c] == a.children[c])
    && (forall c :: c in b.children && c !in a.children ==> b.children[c] >= bound)
  }

  /** `t'` only appended nodes to `t` and added links to new nodes. */
  predicate Grows(t: TrieTree, t': TrieTree)
  {
    && t'.root == t.root && |t.nodes| <= |t'.nodes|
    && forall m :: 0 <= m < |t.nodes| ==> NodeGrows(t.nodes[m], t'.nodes[m], |t.nodes|)
  }

  lemma {:induction false} GrowsRefl(t: TrieTree)
    ensures Grows(t, t)
  {
    assert forall m :: 0 <= m < |t.nodes| ==> NodeGrows(t.nodes[m], t.nodes[m], |t.nodes|);
  }

  lemma {:induction false} GrowsTrans(t1: TrieTree, t2: TrieTree, t3: TrieTree)
    requires Grows(t1, t2) && Grows(t2, t3)
    ensures Grows(t1, t3)
  {
    forall m | 0 <= m < |t1.nodes| ensures NodeGrows(t1.nodes[m], t3.nodes[m], |t1.nodes|) {
      var a, b, x := t1.nodes[m], t2.nodes[m], t3.nodes[m];
      assert NodeGrows(a, b, |t1.nodes|) && NodeGrows(b, x, |t2.nodes|);
      forall c | c in x.children && c !in a.children ensures x.children[c] >= |t1.nodes| {
        if c in b.children {
          assert x.children[c] == b.children[c];
        }
      }
    }
  }

  /** A walk that succeeds before the tree grows ends at the same node
      after. */
  lemma {:induction false} WalkKept(t: TrieTree, t': TrieTree, cur: nat, w: string)
    requires ChildrenWf(t.nodes) && Grows(t, t') && cur < |t.nodes| && Walk(t.nodes, cur, w).Some?
    ensures Walk(t'.nodes, cur, w) == Walk(t.nodes, cur, w)
    decreases |w|
  {
    if w != [] {
      assert NodeGrows(t.nodes[cur], t'.nodes[cur], |t.nodes|);
      WalkKept(t, t', t.nodes[cur].children[w[0]], w[1..]);
    }
  }

  /** A walk that fails before the tree grows ends, if at all, at a node
      appended by the growth. */
  lemma {:induction false} WalkNew(t: TrieTree, t': TrieTree, cur: nat, w: string)
    requires ChildrenWf(t.nodes) && ChildrenWf(t'.nodes) && Grows(t, t') && cur < |t.nodes|
    requires Walk(t.nodes, cur, w).None? && Walk(t'.nodes, cur, w).Some?
    ensures Walk(t'.nodes, cur, w).value >= |t.nodes|
    decreases |w|
  {
    assert NodeGrows(t.nodes[cur], t'.nodes[cur], |t.nodes|);
    var d := t'.nodes[cur].children[w[0]];
    if w[0] in t.nodes[cur].children {
      WalkNew(t, t', d, w[1..]);
    } else {
      WalkValue(t'.nodes, d, w[1..]);
    }
  }

  // ---- construction ----

  /** `new TrieTree()`: `createNode('\0', "")` appends the root to the
      shared list. */
  function Create(pool: seq<TrieNode>): (t: TrieTree)
    requires ChildrenWf(pool)
    ensures Wf(t) && |t.nodes| == |pool| + 1 && t.nodes[..|pool|] == pool
    ensures t.nodes[t.root].children == map[]
  {
    TrieTree(pool + [NewNode('\0', "")], |pool|)
  }

  /** A new tree holds no prefix and no word. */
  lemma {:induction false} CreateHoldsNothing(pool: seq<TrieNode>, p: string)
    requires ChildrenWf(pool) && p != []
    ensures Walk(Create(pool).nodes, Create(pool).root, p).None?
  {
  }

  /** `createNode(c, v)` followed by `putChild(c, index)` on `cur`. */
  function AddChild(t: TrieTree, cur: nat, c: char, v: string): (r: TrieTree)
    requires Wf(t) && cur < |t.nodes| && !ContainsChild(t.nodes[cur], c) && v == t.nodes[cur].value + [c]
    ensures Wf(r) && Grows(t, r) && |r.nodes| == |t.nodes| + 1
    ensures GetChild(r.nodes[cur], c) == |t.nodes|
    ensures forall m :: 0 <= m < |r.nodes| ==> r.nodes[m].isWord == (m < |t.nodes| && t.nodes[m].isWord)
  {
    var n := |t.nodes|;
    var nodes' := t.nodes[cur := PutChild(t.nodes[cur], c, n)] + [NewNode(c, v)];
    var r := TrieTree(nodes', t.root);
    assert forall m :: 0 <= m < n ==> r.nodes[m].ch == t.nodes[m].ch && r.nodes[m].value == t.nodes[m].value;
    assert forall m :: 0 <= m < n && m != cur ==> r.nodes[m] == t.nodes[m];
    assert ChildrenWf(r.nodes) by {
      forall m, d | 0 <= m < |r.nodes| && d in r.nodes[m].children
        ensures m < r.nodes[m].children[d] < |r.nodes|
        ensures r.nodes[r.nodes[m].children[d]].ch == d
        ensures r.nodes[r.nodes[m].children[d]].value == r.nodes[m].value + [d]
      {
        if !(m == cur && d == c) {
          assert d in t.nodes[m].children && r.nodes[m].children[d] == t.nodes[m].children[d];
        }
      }
    }
    assert NodeGrows(t.nodes[cur], r.nodes[cur], n);
    r
  }

  /** One step down: the child of `cur` for `c`, created with value `v`
      when missing. The root step tests `containsChild(c)` and the later
      steps `getChild(c) == -1`, which is the same test (`GetChildMissing`). */
  function Descend(t: TrieTree, cur: nat, c: char, v: string): (r: TrieTree)
    requires Wf(t) && cur < |t.nodes| && v == t.nodes[cur].value + [c]
    ensures Wf(r) && Grows(t, r) && c in r.nodes[cur].children
    ensures forall m :: 0 <= m < |r.nodes| ==> r.nodes[m].isWord == (m < |t.nodes| && t.nodes[m].isWord)
    ensures c in t.nodes[cur].children ==> r == t
  {
    GrowsRefl(t);
    if !ContainsChild(t.nodes[cur], c) then AddChild(t, cur, c, v) else t
  }

  /** `setIsWord(true)` on node `n`. */
  function SetWord(t: TrieTree, n: nat): (r: TrieTree)
    requires Wf(t) && n < |t.nodes|
    ensures Wf(r) && Grows(t, r) && |r.nodes| == |t.nodes|
    ensures forall m :: 0 <= m < |r.nodes| ==> r.nodes[m].isWord == (t.nodes[m].isWord || m == n)
    ensures t.nodes[n].isWord ==> r == t
  {
    var r := t.(nodes := t.nodes[n := SetIsWord(t.nodes[n], true)]);
    assert forall m :: 0 <= m < |t.nodes| ==> r.nodes[m].children == t.nodes[m].children;
    assert forall m :: 0 <= m < |t.nodes| ==> NodeGrows(t.nodes[m], r.nodes[m], |t.nodes|);
    r
  }

  /** The loop of `addWord(char[])` from position `i`, standing at `cur`:
      a missing child is created with the parent's value followed by its
      character, and the last node reached becomes a word. The result is
      the tree and that last node, which the rest of `w` leads to from
      `cur`; it is the only node whose flag is set, and when the path
      already existed the only change is that flag. */
  function AddFrom(t: TrieTree, cur: nat, w: string, i: nat): (r: (TrieTree, nat))
    requires Wf(t) && cur < |t.nodes| && i <= |w|
    ensures Wf(r.0) && Grows(t, r.0) && r.1 < |r.0.nodes|
    ensures Walk(r.0.nodes, cur, w[i..]) == Some(r.1)
    ensures forall m :: 0 <= m < |r.0.nodes| ==>
              r.0.nodes[m].isWord == ((m < |t.nodes| && t.nodes[m].isWord) || m == r.1)
    ensures Walk(t.nodes, cur, w[i..]).Some? ==>
              r.1 == Walk(t.nodes, cur, w[i..]).value && r.1 < |t.nodes| && r.0 == SetWord(t, r.1)
    decreases |w| - i
  {
    if i == |w| then
      (SetWord(t, cur), cur)
    else
      WalkStep(t.nodes, cur, w, i);
      var t1 := Descend(t, cur, w[i], t.nodes[cur].value + [w[i]]);
      var next := GetChild(t1.nodes[cur], w[i]);
      var r := AddFrom(t1, next, w, i + 1);
      AddFromStep(t, t1, r.0, cur, next, r.1, w, i);
      r
  }

  /** The step of `AddFrom` that puts the child in front of the rest. */
  lemma {:induction false} AddFromStep(t: TrieTree, t1: TrieTree, t2: TrieTree, cur: nat, next: int, fin: nat, w: string, i: nat)
    requires Wf(t) && Wf(t1) && Wf(t2) && cur < |t.nodes| && i < |w|
    requires Grows(t, t1) && Grows(t1, t2)
    requires w[i] in t1.nodes[cur].children && next == t1.nodes[cur].children[w[i]]
    requires Walk(t2.nodes, next, w[i + 1..]) == Some(fin)
    ensures Grows(t, t2)
    ensures Walk(t2.nodes, cur, w[i..]) == Some(fin)
  {
    GrowsTrans(t, t1, t2);
    assert NodeGrows(t1.nodes[cur], t2.nodes[cur], |t1.nodes|);
    WalkStep(t2.nodes, cur, w, i);
  }

  /** `addWord(char[])`: the first character is looked up under the root
      (its new node gets the value `"" + c`), the rest by `AddFrom`. */
  function Insert(t: TrieTree, w: string): (r: (TrieTree, nat))
    requires Wf(t) && w != []
    ensures Wf(r.0) && Grows(t, r.0) && r.1 < |r.0.nodes|
    ensures Walk(r.0.nodes, t.root, w) == Some(r.1)
    ensures forall m :: 0 <= m < |r.0.nodes| ==>
              r.0.nodes[m].isWord == ((m < |t.nodes| && t.nodes[m].isWord) || m == r.1)
    ensures Walk(t.nodes, t.root, w).Some? ==>
              r.1 == Walk(t.nodes, t.root, w).value && r.1 < |t.nodes| && r.0 == SetWord(t, r.1)
  {
    assert w[0..] == w;
    WalkStep(t.nodes, t.root, w, 0);
    var t1 := Descend(t, t.root, w[0], [w[0]]);
    var next := GetChild(t1.nodes[t1.root], w[0]);
    var r := AddFrom(t1, next, w, 1);
    AddFromStep(t, t1, r.0, t.root, next, r.1, w, 0);
    r
  }

  // ---- Java's String.trim ----

  /** No character above U+0020. */
  predicate AllBlank(s: string)
  {
    forall k :: 0 <= k < |s| ==> s[k] <= ' '
  }

  function TrimStart(s: string): (r: string)
    decreases |s|
  {
    if s != [] && s[0] <= ' ' then TrimStart(s[1..]) else s
  }

  function TrimEnd(s: string): (r: string)
    decreases |s|
  {
    if s != [] && s[|s| - 1] <= ' ' then TrimEnd(s[..|s| - 1]) else s
  }

  /** `String.trim()`: leading and trailing characters up to U+0020 go. */
  function Trim(s: string): string
  {
    TrimEnd(TrimStart(s))
  }

  lemma {:induction false} TrimStartBlank(s: string)
    ensures TrimStart(s) == [] <==> AllBlank(s)
    ensures TrimStart(s) != [] ==> TrimStart(s)[0] > ' '
    decreases |s|
  {
    if s != [] && s[0] <= ' ' {
      TrimStartBlank(s[1..]);
      assert AllBlank(s) <==> AllBlank(s[1..]) by {
        if AllBlank(s[1..]) {
          forall k | 0 <= k < |s| ensures s[k] <= ' ' {
            if k > 0 { assert s[k] == s[1..][k - 1]; }
          }
        }
      }
    }
  }

  lemma {:induction false} TrimEndBlank(s: string)
    ensures TrimEnd(s) == [] <==> AllBlank(s)
    decreases |s|
  {
    if s != [] && s[|s| - 1] <= ' ' {
      var u := s[..|s| - 1];
      TrimEndBlank(u);
      assert AllBlank(s) <==> AllBlank(u) by {
        if AllBlank(u) {
          forall k | 0 <= k < |s| ensures s[k] <= ' ' {
            if k < |s| - 1 { assert s[k] == u[k]; }
          }
        }
      }
    }
  }

  /** A string trims to nothing exactly when it has no character above
      U+0020; such strings include the empty one. */
  lemma {:induction false} TrimEmptyIffBlank(s: string)
    ensures Trim(s) == [] <==> AllBlank(s)
  {
    TrimStartBlank(s);
    var u := TrimStart(s);
    TrimEndBlank(u);
    if u != [] {
      assert !AllBlank(u) by { assert u[0] > ' '; }
    }
  }

  // ---- the public operations ----

  /** `addWord(String)`: a null word, or one that is blank once trimmed, is
      ignored; any other word is inserted as given (untrimmed). The tree
      stays well formed and only grows. */
  function AddWord(t: TrieTree, word: Option<string>): (r: TrieTree)
    requires Wf(t)
    ensures Wf(r) && Grows(t, r)
    ensures word.None? || AllBlank(word.value) ==> r == t
  {
    GrowsRefl(t);
    if word.None? then t
    else
      TrimEmptyIffBlank(word.value);
      if Trim(word.value) != [] then Insert(t, word.value).0 else t
  }

  /** `getNode(char[])`'s loop from position `i`, standing at `cur`
      (-1 once a character was missing). */
  function GetNodeFrom(nodes: seq<TrieNode>, cur: int, w: string, i: nat): (r: int)
    requires ChildrenWf(nodes) && -1 <= cur < |nodes| && i <= |w|
    ensures -1 <= r < |nodes|
    ensures r == if cur == -1 then -1 else OrMissing(Walk(nodes, cur, w[i..]))
    decreases |w| - i
  {
    if i >= |w| || cur == -1 then cur
    else
      var next := GetChild(nodes[cur], w[i]);
      WalkStep(nodes, cur, w, i);
      GetNodeFrom(nodes, next, w, i + 1)
  }

  /** `getNode(char[])`: the index of the node `w` leads to from the root,
      -1 when some character has no child on the way; an empty string
      fails on `argString[0]`. */
  function GetNode(t: TrieTree, w: string): (r: Result<int, TrieFault>)
    requires Wf(t)
    ensures r.Failure? <==> w == []
    ensures r.Success? ==> -1 <= r.value < |t.nodes| && r.value == OrMissing(Walk(t.nodes, t.root, w))
  {
    if w == [] then Failure(EmptyString)
    else
      Success(GetNodeFrom(t.nodes, GetChild(t.nodes[t.root], w[0]), w, 1))
  }

  /** `getPrefix(String)`: the node found is the one whose value is the
      string asked for. */
  function GetPrefix(t: TrieTree, s: string): (r: Result<int, TrieFault>)
    requires Wf(t)
    ensures r.Failure? <==> s == []
    ensures r.Success? && r.value != -1 ==> 0 <= r.value < |t.nodes| && t.nodes[r.value].value == s
  {
    var r := GetNode(t, s);
    if r.Success? && r.value != -1 then WalkValue(t.nodes, t.root, s); r else r
  }

  /** `contains(char[], boolean)`. */
  function Contains(t: TrieTree, w: string, asWord: bool): (r: Result<bool, TrieFault>)
    requires Wf(t)
  {
    var n := GetNode(t, w);
    if n.Failure? then Failure(n.error)
    else
      var node := n.value;
      Success((node != -1 && t.nodes[node].isWord && asWord) || (!asWord && node != -1))
  }

  /** `containsPrefix(String)`: `p` can be walked from the root. */
  function ContainsPrefix(t: TrieTree, p: string): (r: Result<bool, TrieFault>)
    requires Wf(t)
    ensures r.Failure? <==> p == []
    ensures r.Success? ==> (r.value <==> Walk(t.nodes, t.root, p).Some?)
  {
    Contains(t, p, false)
  }

  /** `containsWord(String)`: `w` can be walked from the root to a node
      flagged as a word. */
  function ContainsWord(t: TrieTree, w: string): (r: Result<bool, TrieFault>)
    requires Wf(t)
    ensures r.Failure? <==> w == []
    ensures r.Success? ==> (r.value <==> Walk(t.nodes, t.root, w).Some? && HasWordAt(t, Walk(t.nodes, t.root, w).value))
  {
    Contains(t, w, true)
  }

  /** Node `n` exists and ends a word. */
  predicate HasWordAt(t: TrieTree, n: nat)
  {
    n < |t.nodes| && t.nodes[n].isWord
  }

  // ---- what adding a word promises ----

  /** After `addWord(w)` for a word that is not blank, `containsWord(w)`. */
  lemma {:induction false} AddWordContainsWord(t: TrieTree, w: string)
    requires Wf(t) && !AllBlank(w)
    ensures ContainsWord(AddWord(t, Some(w)), w) == Success(true)
  {
    TrimEmptyIffBlank(w);
    var r := Insert(t, w);
    assert r.0.nodes[r.1].isWord;
  }

  /** After `addWord(w)` for a word that is not blank, every non-empty
      prefix of `w` is a prefix of the tree. */
  lemma {:induction false} AddWordContainsPrefixes(t: TrieTree, w: string, k: nat)
    requires Wf(t) && !AllBlank(w) && 0 < k <= |w|
    ensures ContainsPrefix(AddWord(t, Some(w)), w[..k]) == Success(true)
  {
    TrimEmptyIffBlank(w);
    var r := Insert(t, w);
    WalkPrefix(r.0.nodes, t.root, w, k);
  }

  /** Adding `w` changes for no other string whether it is a word: only
      the node `w` leads to gets its flag set. In particular a proper
      prefix of `w` that was not a word does not become one. */
  lemma {:induction false} AddWordOtherWords(t: TrieTree, w: string, p: string)
    requires Wf(t) && p != w
    ensures ContainsWord(AddWord(t, Some(w)), p) == ContainsWord(t, p)
  {
    TrimEmptyIffBlank(w);
    if Trim(w) != [] && p != [] {
      var (t', fin) := Insert(t, w);
      WalkValue(t'.nodes, t.root, w);
      WordAtOnlyFin(t, t', fin, p);
    }
  }

  /** When the tree grew and only node `fin` got its flag set, a string
      that does not lead to `fin` is a word afterwards exactly when it was
      one before. */
  lemma {:induction false} WordAtOnlyFin(t: TrieTree, t': TrieTree, fin: nat, p: string)
    requires Wf(t) && Wf(t') && Grows(t, t') && fin < |t'.nodes| && t'.nodes[fin].value != p
    requires forall m :: 0 <= m < |t'.nodes| ==>
               t'.nodes[m].isWord == ((m < |t.nodes| && t.nodes[m].isWord) || m == fin)
    ensures (Walk(t'.nodes, t.root, p).Some? && HasWordAt(t', Walk(t'.nodes, t.root, p).value)) <==>
            (Walk(t.nodes, t.root, p).Some? && HasWordAt(t, Walk(t.nodes, t.root, p).value))
  {
    if Walk(t.nodes, t.root, p).Some? {
      var n := Walk(t.nodes, t.root, p).value;
      WalkKept(t, t', t.root, p);
      WalkValue(t.nodes, t.root, p);
      assert NodeGrows(t.nodes[n], t'.nodes[n], |t.nodes|);
    } else if Walk(t'.nodes, t.root, p).Some? {
      WalkNew(t, t', t.root, p);
      WalkValue(t'.nodes, t.root, p);
    }
  }

  /** Adding a word twice is adding it once: the second time every node
      on its path exists and already ends a word, so nothing is created
      and nothing changes. */
  lemma {:induction false} AddWordIdempotent(t: TrieTree, word: Option<string>)
    requires Wf(t)
    ensures AddWord(AddWord(t, word), word) == AddWord(t, word)
  {
    if word.Some? && Trim(word.value) != [] {
      var w := word.value;
      TrimEmptyIffBlank(w);
      var (t1, fin) := Insert(t, w);
      assert AddWord(t, word) == t1;
      assert t1.nodes[fin].isWord;
      assert Insert(t1, w).0 == SetWord(t1, fin);
    } else if word.Some? {
      TrimEmptyIffBlank(word.value);
    }
  }
}
