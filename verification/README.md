# Generalized suffix tree index, modelled in Dafny

The repository indexes a dictionary of keys, each with an integer id. It
builds a generalized suffix tree with Ukkonen's on-line construction,
extended to many keys: every node holds the set of ids of the keys that
reach it. A query walks one path from the root and returns the ids it
finds there. All nodes and edges live in two append-only lists and refer
to each other by index. The model keeps that layout: a `Tree` is a
`seq<Node>` and a `seq<Edge>`, each with integer handles.

The modules follow the Java classes:

- `GstNode` and `GstEdge` model the node and edge records.
- `Arena` holds the tree state, its well-formedness invariant (`Wf`), `createNode` and `createEdge`.
- `Construction` covers `canonize`, `testAndSplit`, `update` and `addWord`.
- `Propagation` covers `addIndex`, `updateIndices` and `flush`.
- `Query` covers `searchNode`, `search` and `match`.
- `Codec` is the binary form, written and read as streams of 16-bit units.
- `EdgeBag` is the parallel-array character map.
- `TrunkTree` and `TrunkWalk`/`TrunkMatching` cover the trunk draft tree. This is the `Node.java` API (bounded `getData`, cached counts), the draft's `search`, `searchWithCount`, `match` and binary writer, and `findLongestSubstring`.
- `Trie` is the character trie.
- `TextUtils` and `IntBytes` are the helpers of the `Utils` classes.
- `Scenarios` follows concrete runs of `addWord`, `flush` and `search` through the model, one call at a time.
- `Strings` (decimal rendering) and `Outcomes` (`Option`/`Result`) are supporting modules.

Java exceptions become `Failure` values of a `Result`, and Java `null`
results become `None`. Mutation becomes a function from the old state to
the new one.

## Model

| member | source | states |
|---|---|---|
| GstNode.AddEdge | trunk/SuffixIndex/src/main/java/rsvp/answering/index/gst/GSTNode.java:93-96 | Afterwards `getEdge(ch)` is the new edge and every other key reads as before; ids and suffix link are untouched |
| GstNode.AddIdx | trunk/SuffixIndex/src/main/java/rsvp/answering/index/gst/GSTNode.java:123-133 | Adds exactly that id: it is contained afterwards and membership of every other id is unchanged |
| GstNode.SetNodeIndices | trunk/SuffixIndex/src/main/java/rsvp/answering/index/gst/GSTNode.java:64-68 | The id set becomes exactly the given collection |
| GstNode.AddIndices | trunk/SuffixIndex/src/main/java/rsvp/answering/index/gst/GSTNode.java:70-73 | Set union: an id is contained afterwards iff it was before or is in the added set |
| GstNode.SetSuffix | trunk/SuffixIndex/src/main/java/rsvp/answering/index/gst/GSTNode.java:113-121 | `getSuffix` returns the value last set; ids and edges are untouched |
| GstNode.ResultCount | trunk/SuffixIndex/src/main/java/rsvp/answering/index/gst/GSTNode.java:135-138 | The count is zero iff the id set is empty, and at least one when any id is contained |
| GstNode.ResultCountTracksIds | trunk/SuffixIndex/src/main/java/rsvp/answering/index/gst/GSTNode.java:64-138 | The count is `indices.size()`: `addIdx` raises it by one exactly for a new id, `setNodeIndices(all)` makes it the size of `all`, and `addIndices(more)` raises it by the number of ids of `more` not yet present |
| GstNode.FreshNodeIsEmpty | trunk/SuffixIndex/src/main/java/rsvp/answering/index/gst/GSTNode.java:57-62 | Read through the accessors, a fresh node has no edge, no id, suffix -1 and count 0 |
| GstNode.AddIdxIdempotent | trunk/SuffixIndex/src/main/java/rsvp/answering/index/gst/GSTNode.java:123-133 | Adding an id twice is adding it once, and adding a present id changes nothing |
| GstEdge.SettersIndependent | SuffixIndex/src/main/java/rsvp/answering/index/gst/GSTEdge.java:35-90 | `setLabel` and `setDest` touch different fields: in either order they build the edge the constructor would, and after a setter the edge still `equals` its old self exactly when the setter kept the old value |
| GstEdge.LabelEquals | SuffixIndex/src/main/java/rsvp/answering/index/gst/GSTEdge.java:46-52 | Two labels are equal iff both are null or both hold the same string |
| GstEdge.EqualsOf | SuffixIndex/src/main/java/rsvp/answering/index/gst/GSTEdge.java:35-54 | `equals` holds iff destinations and labels (null counting as equal to null) agree, and equal edges have equal 32-bit wrap-around `hashCode` |
| GstEdge.Equals | SuffixIndex/src/main/java/rsvp/answering/index/gst/GSTEdge.java:25-54 | On edges with a label, `equals` is structural equality and implies equal hash codes |
| GstEdge.ToString | SuffixIndex/src/main/java/rsvp/answering/index/gst/GSTEdge.java:72-75 | The label, a tab, then a decimal that parses back to the destination |
| Strings.ParseIntToString | trunk/SuffixIndex/src/main/java/rsvp/answering/index/gst/GSTEdge.java:40-43 | The decimal rendering used by `toString` reads back as the same integer, sign included |
| Arena.EmptyTree | SuffixIndex/src/main/java/rsvp/answering/index/gst/GSuffixTree.java:88-97 | The new tree is well formed, with one node (the root), no edges and `last` 0 |
| Arena.CreateNode | SuffixIndex/src/main/java/rsvp/answering/index/gst/GSuffixTree.java:557-562 | Appends one fresh node and returns its index; every earlier node and edge is kept and the invariant is preserved |
| Arena.CreateEdge | SuffixIndex/src/main/java/rsvp/answering/index/gst/GSuffixTree.java:570-574 | Appends one edge and returns its index; earlier edges stay; a non-empty label to a valid node keeps the tree well formed |
| Arena.SameShapeWf | SuffixIndex/src/main/java/rsvp/answering/index/gst/GSuffixTree.java:110-133 | Changing only id sets keeps a tree well formed |
| Arena.ExtendsTrans | SuffixIndex/src/main/java/rsvp/answering/index/gst/GSuffixTree.java:277-322 | The per-insertion growth relation (old ids kept, only the inserted id added) composes across steps |
| Arena.EmptyTreeRanked | SuffixIndex/src/main/java/rsvp/answering/index/gst/GSuffixTree.java:88-97 | A new tree is acyclic: its single node can be ranked |
| Construction.Canonize | SuffixIndex/src/main/java/rsvp/answering/index/gst/GSuffixTree.java:430-455 | The result is a valid node, the remainder is no longer than the input and does not start with the whole label of its edge; an empty string returns `(s, "")` |
| Construction.CanonizePath | SuffixIndex/src/main/java/rsvp/answering/index/gst/GSuffixTree.java:430-455 | The labels of the edges walked from `s` to the returned node, followed by the remainder, spell the input |
| Construction.CanonizeReads | SuffixIndex/src/main/java/rsvp/answering/index/gst/GSuffixTree.java:430-455 | Reading from `s` is the same as reading the remainder from the node `canonize` returns |
| Construction.Split | SuffixIndex/src/main/java/rsvp/answering/index/gst/GSuffixTree.java:358-376 | A split leaves a well formed tree, both labels non-empty and ids elsewhere unchanged; the new label followed by the shortened one gives back the old label iff the old label starts with the head |
| Construction.RejoinIffPrefix | SuffixIndex/src/main/java/rsvp/answering/index/gst/GSuffixTree.java:399-413 | Cutting a label and putting the head back in front restores it exactly when the label starts with the head |
| Construction.SplitKeepsReads | SuffixIndex/src/main/java/rsvp/answering/index/gst/GSuffixTree.java:358-376 | A split along a label's own prefix changes nothing that can be read from any existing node |
| Construction.TestAndSplit | SuffixIndex/src/main/java/rsvp/answering/index/gst/GSuffixTree.java:341-423 | On success the tree stays well formed and grows only by the inserted id; when the end point is reached no node or edge is added |
| Construction.TestAndSplitEndpoint | SuffixIndex/src/main/java/rsvp/answering/index/gst/GSuffixTree.java:341-423 | When `stringPart` can be read from `s2`, `testAndSplit` succeeds; inside an edge the end point is reached iff `stringPart + c` can be read |
| Construction.TestAndSplitKeepsReads | SuffixIndex/src/main/java/rsvp/answering/index/gst/GSuffixTree.java:341-423 | Whatever `testAndSplit` splits, every string readable from an existing node stays readable and no new one appears |
| Construction.AddIndexKeepsReads | SuffixIndex/src/main/java/rsvp/answering/index/gst/GSuffixTree.java:867-887 | Propagating ids does not change what can be read from any node |
| Construction.SafeCutLastChar | SuffixIndex/src/main/java/rsvp/answering/index/gst/GSuffixTree.java:591-598 | The string without its last character, so that appending that character gives it back; "" stays "" |
| Construction.LinkUnlessRoot | SuffixIndex/src/main/java/rsvp/answering/index/gst/GSuffixTree.java:507-518 | Sets the suffix link of a non-root node and keeps the tree well formed with its ids unchanged |
| Construction.AttachLeaf | SuffixIndex/src/main/java/rsvp/answering/index/gst/GSuffixTree.java:489-505 | Hangs a leaf under the character `c` from node `r`; an existing `c`-edge is reused and nothing changes |
| Construction.Grow | SuffixIndex/src/main/java/rsvp/answering/index/gst/GSuffixTree.java:489-521 | One loop step of `update`: the tree stays well formed, the new active leaf hangs under `c` at `r`, and the previous node is linked to `r` |
| Construction.NextPosition | SuffixIndex/src/main/java/rsvp/answering/index/gst/GSuffixTree.java:523-538 | Following the suffix link (or dropping the first character at the root) and canonizing gives a valid node, and the remainder still ends in the character being added |
| Construction.UpdateLoop | SuffixIndex/src/main/java/rsvp/answering/index/gst/GSuffixTree.java:487-545 | Every iteration keeps the tree well formed and acyclic, grows it only by the inserted id and never reports an ordering error |
| Construction.Update | SuffixIndex/src/main/java/rsvp/answering/index/gst/GSuffixTree.java:470-555 | On success the tree stays well formed and acyclic, its ids grow only by `value`, and the root and `last` are unchanged |
| Construction.AddWordFrom | SuffixIndex/src/main/java/rsvp/answering/index/gst/GSuffixTree.java:289-321 | Feeding the key one character at a time keeps the tree well formed and acyclic and grows it only by `index` |
| Construction.AddWord | SuffixIndex/src/main/java/rsvp/answering/index/gst/GSuffixTree.java:277-322 | Fails with the ordering error iff `index < last`, leaving the tree untouched; otherwise `last` becomes `index`, the tree stays well formed and acyclic, and old ids are kept |
| Construction.GrowAcyclic | SuffixIndex/src/main/java/rsvp/answering/index/gst/GSuffixTree.java:489-521 | Hanging a leaf, relinking and linking the previous node keep an acyclic tree acyclic |
| Construction.TestAndSplitAcyclic | SuffixIndex/src/main/java/rsvp/answering/index/gst/GSuffixTree.java:341-423 | Splitting an edge at the active point keeps an acyclic tree acyclic |
| Scenarios.RepeatThenExtend | SuffixIndex/src/main/java/rsvp/answering/index/gst/GSuffixTree.java:487-545 | Adding "aa" and then "aab" to a new tree succeeds, with the exact trees given; the last character needs three rounds of the update loop |
| Scenarios.CacaoFound | SuffixIndex/src/test/java/rsvp/answering/index/gst/SuffixTreeTest.java:29-42 | Adding "cacao" under id 0 to a new tree and flushing it, every non-empty substring of "cacao" is found with exactly the id set {0}, and "caco", "cacaoo" and "ccacao" are not found |
| Scenarios.CacaoTwice | SuffixIndex/src/test/java/rsvp/answering/index/gst/SuffixTreeTest.java:69-81 | Adding "cacao" under id 0 and again under id 1, then flushing, every non-empty substring of "cacao" is found with exactly the id set {0, 1} |
| Propagation.AddIndex | SuffixIndex/src/main/java/rsvp/answering/index/gst/GSuffixTree.java:867-887 | No-op when the node already has the id; otherwise the id is added, only to nodes on the suffix chain, and a node that gains it passes it to its suffix link's node |
| Propagation.AddIndexOnlyChain | SuffixIndex/src/main/java/rsvp/answering/index/gst/GSuffixTree.java:867-887 | Every node `addIndex` changes is some `k` suffix links down the chain of the start node, and neither it nor any earlier node of the chain held the id: the walk stops at the first node that already holds it |
| Propagation.AddIndexCoversChain | SuffixIndex/src/main/java/rsvp/answering/index/gst/GSuffixTree.java:867-887 | Every chain node up to the first that already holds the id receives it |
| Propagation.AddIndexIdempotent | SuffixIndex/src/main/java/rsvp/answering/index/gst/GSuffixTree.java:867-887 | Propagating the same id twice from the same node is the same as once |
| Propagation.CreateNodeWith | SuffixIndex/src/main/java/rsvp/answering/index/gst/GSuffixTree.java:563-568 | `createNode(index)` appends a node holding exactly that id and keeps the tree well formed |
| Propagation.UpdateIndices | SuffixIndex/src/main/java/rsvp/answering/index/gst/GSuffixTree.java:110-124 | Only id sets change, never edges, labels or links |
| Propagation.UpdateIndicesCollects | SuffixIndex/src/main/java/rsvp/answering/index/gst/GSuffixTree.java:110-124 | Afterwards a node holds every id of every node reachable below it within the depth explored |
| Propagation.MergeChildrenCollects | SuffixIndex/src/main/java/rsvp/answering/index/gst/GSuffixTree.java:118-121 | The child loop merges the complete subtree sets of all remaining children |
| Propagation.Flush | SuffixIndex/src/main/java/rsvp/answering/index/gst/GSuffixTree.java:130-133 | The tree stays well formed with the same shape, and the root holds every id in the tree |
| Propagation.UpdateIndicesCollectsBelow | SuffixIndex/src/main/java/rsvp/answering/index/gst/GSuffixTree.java:110-124 | After `updateIndices(n)`, every node on a path below `n` holds every id found below it within the depth the path leaves |
| Propagation.FlushExact | SuffixIndex/src/main/java/rsvp/answering/index/gst/GSuffixTree.java:110-133 | In a ranked arena, after `flush` every node reachable from the root holds exactly the ids found in its subtree |
| Propagation.FlushParentHoldsChild | SuffixIndex/src/main/java/rsvp/answering/index/gst/GSuffixTree.java:126-133 | In a ranked arena, after `flush` every node reachable from the root holds the ids of each of its children |
| Propagation.FlushAcyclic | SuffixIndex/src/main/java/rsvp/answering/index/gst/GSuffixTree.java:126-133 | The same two facts for any acyclic arena, which includes every tree `addWord` builds from a new one |
| Propagation.ReachMono | SuffixIndex/src/main/java/rsvp/answering/index/gst/GSuffixTree.java:110-133 | Adding ids only ever adds to what a subtree holds, so `flush` never removes an id |
| Query.EdgeFor | SuffixIndex/src/main/java/rsvp/answering/index/gst/GSuffixTree.java:184-192 | The edge under a character starts with that character and leads to a valid node |
| Query.ReadsIffInTree | SuffixIndex/src/main/java/rsvp/answering/index/gst/GSuffixTree.java:171-215 | Being readable by the walk is equivalent to being spelled by some path of whole labels followed by a prefix of one more label |
| Query.RegionMatches | SuffixIndex/src/main/java/rsvp/answering/index/gst/GSuffixTree.java:193-199 | `regionMatches` holds iff the word and the label agree on every position of the region |
| Query.SearchFrom | SuffixIndex/src/main/java/rsvp/answering/index/gst/GSuffixTree.java:171-215 | A node is returned iff the rest of the word can be read from here |
| Query.SearchNode | SuffixIndex/src/main/java/rsvp/answering/index/gst/GSuffixTree.java:171-215 | Returns a node iff the word is non-empty and can be read from the root; otherwise null |
| Query.SearchFromLands | SuffixIndex/src/main/java/rsvp/answering/index/gst/GSuffixTree.java:171-215 | The node returned is the destination of the edge on which the word ends |
| Query.Search | SuffixIndex/src/main/java/rsvp/answering/index/gst/GSuffixTree.java:141-149 | Null iff the word cannot be read from the root; otherwise the ids of the node where it ends |
| Query.CommonPrefix | SuffixIndex/src/main/java/rsvp/answering/index/gst/GSuffixTree.java:244-259 | The length of the longest common prefix of the label and the rest of the word |
| Query.MatchFrom | SuffixIndex/src/main/java/rsvp/answering/index/gst/GSuffixTree.java:223-265 | The longest readable stretch of the word from this point: it can be read, and one more character cannot |
| Query.Match | SuffixIndex/src/main/java/rsvp/answering/index/gst/GSuffixTree.java:223-265 | Returns a prefix of the word, readable from the root, such that no longer prefix is |
| Codec.Unit16 | SuffixIndex/src/main/java/rsvp/answering/index/gst/GSuffixTree.java:751-775 | Every written value is one 16-bit unit, and a value that fits is stored unchanged |
| Codec.ReadUnit | SuffixIndex/src/main/java/rsvp/answering/index/gst/GSuffixTree.java:667-693 | Reads one unit and fails exactly when the stream is exhausted or its next value is not a 16-bit unit |
| Codec.Decode | SuffixIndex/src/main/java/rsvp/answering/index/gst/GSuffixTree.java:659-706 | A decoded tree has root, active leaf and `last` at 0 and no suffix links |
| Codec.CharsRoundTrip | SuffixIndex/src/main/java/rsvp/answering/index/gst/GSuffixTree.java:670-674 | A label written unit by unit reads back as the same label, leaving the rest of the stream |
| Codec.EdgeRoundTrip | SuffixIndex/src/main/java/rsvp/answering/index/gst/GSuffixTree.java:752-757 | One edge (length, characters, destination) reads back exactly |
| Codec.EdgesRoundTrip | SuffixIndex/src/main/java/rsvp/answering/index/gst/GSuffixTree.java:667-675 | The edge list reads back exactly, in order |
| Codec.IdsRoundTrip | SuffixIndex/src/main/java/rsvp/answering/index/gst/GSuffixTree.java:684-688 | Reading back the written ids adds exactly those ids to the set being built |
| Codec.PairsRoundTrip | SuffixIndex/src/main/java/rsvp/answering/index/gst/GSuffixTree.java:689-694 | Reading back the written pairs sets exactly the written keys to their values and keeps the other keys |
| Codec.NodeRoundTrip | SuffixIndex/src/main/java/rsvp/answering/index/gst/GSuffixTree.java:762-776 | One node reads back with the same id set and edge map and no suffix link |
| Codec.NodesRoundTrip | SuffixIndex/src/main/java/rsvp/answering/index/gst/GSuffixTree.java:680-696 | The node list reads back with the same id sets and edge maps, in order |
| Codec.RoundTrip | SuffixIndex/src/main/java/rsvp/answering/index/gst/GSuffixTree.java:742-780 | When every stored value fits one non-surrogate unit, decoding the encoding gives back the edge list and every node's ids and edge map |
| Codec.WideDestinationWraps | SuffixIndex/src/main/java/rsvp/answering/index/gst/GSuffixTree.java:756 | A destination of 65536 comes back as 0, because the writer keeps only 16 bits |
| EdgeBag.BinarySearch | SuffixIndex/src/main/java/rsvp/answering/index/gst/EdgeBag.java:83-86 | On sorted characters: a non-negative result is a position of the key, and a negative one means it is absent and encodes its insertion point |
| EdgeBag.LinearSearch | SuffixIndex/src/main/java/rsvp/answering/index/gst/EdgeBag.java:88-95 | The first position of the key, or -1 exactly when it is absent |
| EdgeBag.Search | SuffixIndex/src/main/java/rsvp/answering/index/gst/EdgeBag.java:78-96 | Whichever strategy the size selects, a non-negative result is a position of the key and a negative one means it is absent |
| EdgeBag.Get | SuffixIndex/src/main/java/rsvp/answering/index/gst/EdgeBag.java:63-76 | The value stored with the character, or -1 when it is absent |
| EdgeBag.SwapDown | SuffixIndex/src/main/java/rsvp/answering/index/gst/EdgeBag.java:114-123 | Swapping two neighbours in both arrays keeps every (character, value) pair |
| EdgeBag.SiftStep | SuffixIndex/src/main/java/rsvp/answering/index/gst/EdgeBag.java:112-124 | One step of the inner loop keeps the prefix sorted around the moving element |
| EdgeBag.SiftDown | SuffixIndex/src/main/java/rsvp/answering/index/gst/EdgeBag.java:112-124 | Moving one element into a sorted prefix extends the sorted prefix and keeps the pairs |
| EdgeBag.SortArrays | SuffixIndex/src/main/java/rsvp/answering/index/gst/EdgeBag.java:108-126 | The characters end up sorted and the pairs are permuted jointly, so the mapping is unchanged |
| EdgeBag.Put | SuffixIndex/src/main/java/rsvp/answering/index/gst/EdgeBag.java:26-61 | Keeps the bag valid (characters distinct, sorted above the threshold); an existing character only gets its value replaced; a new one adds exactly one pair, appended below the threshold |
| EdgeBag.AppendedPairs | SuffixIndex/src/main/java/rsvp/answering/index/gst/EdgeBag.java:40-55 | After adding a new character the pairs are the old ones plus the new one |
| EdgeBag.OverwrittenPairs | SuffixIndex/src/main/java/rsvp/answering/index/gst/EdgeBag.java:57-60 | Overwriting a value replaces only that character's pair |
| EdgeBag.Values | SuffixIndex/src/main/java/rsvp/answering/index/gst/EdgeBag.java:98-101 | One value per stored character, each paired with its own character |
| EdgeBag.FreshBagIsEmpty | SuffixIndex/src/main/java/rsvp/answering/index/gst/EdgeBag.java:98-101 | A fresh bag is valid and has no values |
| EdgeBag.PutThenGet | SuffixIndex/src/main/java/rsvp/answering/index/gst/EdgeBag.java:26-76 | `get(c)` after `put(c, e)` is `e`, and `get` of any other character is what it was before |
| TrunkTree.TakeInto | trunk/SuffixIndex/src/main/java/com/abahgat/suffixtree/Node.java:124-132 | One bounded loop of `getData`: only adds elements, stops at exactly `limit`, and otherwise adds them all |
| TrunkTree.GetData | trunk/SuffixIndex/src/main/java/com/abahgat/suffixtree/Node.java:108-151 | With a limit of at least one, the result has at most that many ids |
| TrunkTree.GetDataAll | trunk/SuffixIndex/src/main/java/com/abahgat/suffixtree/Node.java:108-151 | `getData(-1)` is the union of the node's own ids and those of every node reachable through edges |
| TrunkTree.GetDataBounded | trunk/SuffixIndex/src/main/java/com/abahgat/suffixtree/Node.java:122-151 | `getData(n)` with `n >= 1` has at most `n` ids, all of them in `getData(-1)` |
| TrunkTree.FreshCounts | trunk/SuffixIndex/src/main/java/com/abahgat/suffixtree/Node.java:89 | Every fresh node's cached count is -1 |
| TrunkTree.ComputeAndCacheCount | trunk/SuffixIndex/src/main/java/com/abahgat/suffixtree/Node.java:217-240 | Caches and returns the size of `getData()`; it changes no other cache entry except to a correct count, and with `recursive` it fills the children's entries too |
| TrunkTree.GetResultCount | trunk/SuffixIndex/src/main/java/com/abahgat/suffixtree/Node.java:250-258 | Fails (the `IllegalStateException`) iff the count was never computed, otherwise returns it |
| TrunkTree.ResultCountLifecycle | trunk/SuffixIndex/src/main/java/com/abahgat/suffixtree/Node.java:217-258 | A fresh count cannot be read; after `computeAndCacheCount` it reads as the size of the subtree's id set |
| TrunkTree.SearchLimited | trunk/SuffixIndex/src/main/java/rsvp/answering/index/gst/GSuffixTree.java:291-299 | Null iff the word cannot be read from the root; with a limit of at least one, at most that many ids |
| TrunkTree.TrunkSearch | trunk/SuffixIndex/src/main/java/rsvp/answering/index/gst/GSuffixTree.java:279-282 | `search(word)`: null iff the word cannot be read; otherwise every id in the subtree where it ends |
| TrunkTree.SearchLimitedWithin | trunk/SuffixIndex/src/main/java/rsvp/answering/index/gst/GSuffixTree.java:279-299 | The limited search finds the same words as the full one and returns a subset of its ids |
| TrunkTree.SearchWithCount | trunk/SuffixIndex/src/main/java/rsvp/answering/index/gst/GSuffixTree.java:309-318 | A miss gives an empty result with total 0; a hit fails iff the node's count was never computed, and otherwise returns the limited result |
| TrunkTree.SearchWithCountTotal | trunk/SuffixIndex/src/main/java/rsvp/answering/index/gst/GSuffixTree.java:309-318 | When the cached counts are correct, the total is the number of ids the full search finds |
| TrunkTree.TrunkRoundTrip | trunk/SuffixIndex/src/main/java/rsvp/answering/index/gst/GSuffixTree.java:142-189 | The draft writer stores `getData()` per node, so reading it back gives the same edges and maps but, for each node, all ids of its subtree |
| TrunkMatching.MatchIffSearch | trunk/SuffixIndex/src/main/java/rsvp/answering/index/gst/GSuffixTree.java:375-421 | The draft `match` succeeds exactly where `searchNode` does |
| TrunkMatching.TrunkMatch | trunk/SuffixIndex/src/main/java/rsvp/answering/index/gst/GSuffixTree.java:375-421 | Null iff the word is empty or cannot be read; otherwise a string that starts with the word |
| TrunkMatching.TrunkMatchLabels | trunk/SuffixIndex/src/main/java/rsvp/answering/index/gst/GSuffixTree.java:375-421 | The result is the concatenation of the whole labels on the path to the node where the word ends |
| TrunkMatching.FindLongestAsWritten | trunk/SuffixIndex/src/main/java/rsvp/answering/index/common/Utils.java:186-199 | As written, `findLongestSubstring` fails iff some suffix it tries cannot be matched |
| TrunkMatching.NullMatchOnEmptyTree | trunk/SuffixIndex/src/main/java/rsvp/answering/index/common/Utils.java:186-199 | On an empty tree and the word "ab" the as-written helper dereferences a null match |
| TrunkMatching.FindLongest | trunk/SuffixIndex/src/main/java/rsvp/answering/index/common/Utils.java:186-199 | The first longest match of `w[i..]` over `0 <= i < |w| - 1`, with unmatched suffixes counting as ""; "" when `|w| <= 1` |
| TrunkMatching.FindLongestAgrees | trunk/SuffixIndex/src/main/java/rsvp/answering/index/common/Utils.java:186-199 | Whenever the as-written helper does not fail, it returns what the corrected one does |
| Trie.FreshNode | SuffixIndex/src/main/java/rsvp/answering/index/trie/TrieNode.java:23-31 | A fresh node returns its constructor arguments, has no child and is not a word |
| Trie.PutChildThenGet | SuffixIndex/src/main/java/rsvp/answering/index/trie/TrieNode.java:44-52 | After `putChild(c, i)`, `getChild(c)` is `i`, `containsChild(c)` holds, and other characters are unaffected |
| Trie.GetChildMissing | SuffixIndex/src/main/java/rsvp/answering/index/trie/TrieNode.java:69-77 | `getChild` is -1 exactly for an absent character |
| Trie.SetIsWordThenIsWord | SuffixIndex/src/main/java/rsvp/answering/index/trie/TrieNode.java:79-87 | `isWord` returns the value last set, and nothing else changes |
| Trie.WalkValue | SuffixIndex/src/main/java/rsvp/answering/index/trie/TrieTree.java:112-143 | Each node's value is the path spelled from the root to it |
| Trie.WalkKept | SuffixIndex/src/main/java/rsvp/answering/index/trie/TrieTree.java:115-140 | Links are never overwritten, so a path that existed leads to the same node after growth |
| Trie.Create | SuffixIndex/src/main/java/rsvp/answering/index/trie/TrieTree.java:32-35 | A new trie has a root with value "" and no children, and the shared node pool is kept |
| Trie.CreateHoldsNothing | SuffixIndex/src/main/java/rsvp/answering/index/trie/TrieTree.java:32-35 | No non-empty string can be walked in a new trie |
| Trie.AddChild | SuffixIndex/src/main/java/rsvp/answering/index/trie/TrieTree.java:133-137 | Appends one node, links it under the character and sets no word flag |
| Trie.Descend | SuffixIndex/src/main/java/rsvp/answering/index/trie/TrieTree.java:133-139 | Follows an existing child unchanged or creates it, so the character is a child afterwards |
| Trie.SetWord | SuffixIndex/src/main/java/rsvp/answering/index/trie/TrieTree.java:142 | Only the given node's word flag is set |
| Trie.AddFrom | SuffixIndex/src/main/java/rsvp/answering/index/trie/TrieTree.java:131-142 | The rest of the word can be walked to the node returned, only that node gains the word flag, and an existing path creates no nodes |
| Trie.Insert | SuffixIndex/src/main/java/rsvp/answering/index/trie/TrieTree.java:112-143 | The word can be walked from the root to the node returned; only that node gains the word flag; re-adding creates no nodes |
| Trie.TrimEmptyIffBlank | SuffixIndex/src/main/java/rsvp/answering/index/trie/TrieTree.java:108 | `trim()` is empty exactly when every character is at most a space |
| Trie.AddWord | SuffixIndex/src/main/java/rsvp/answering/index/trie/TrieTree.java:106-110 | Null and blank words leave the trie unchanged; otherwise it grows and stays well formed |
| Trie.GetNodeFrom | SuffixIndex/src/main/java/rsvp/answering/index/trie/TrieTree.java:182-192 | The loop reaches the node at the end of the walk, or -1 as soon as a character has no child |
| Trie.GetNode | SuffixIndex/src/main/java/rsvp/answering/index/trie/TrieTree.java:178-193 | Fails on the empty string; otherwise the node the word leads to, or -1 |
| Trie.GetPrefix | SuffixIndex/src/main/java/rsvp/answering/index/trie/TrieTree.java:161-164 | A node found for `s` carries `s` as its value |
| Trie.ContainsPrefix | SuffixIndex/src/main/java/rsvp/answering/index/trie/TrieTree.java:145-148 | True iff some path spells the prefix |
| Trie.ContainsWord | SuffixIndex/src/main/java/rsvp/answering/index/trie/TrieTree.java:150-153 | True iff some path spells the word and its last node carries the word flag |
| Trie.AddWordContainsWord | SuffixIndex/src/main/java/rsvp/answering/index/trie/TrieTree.java:106-153 | After adding a non-blank word, `containsWord` of it holds |
| Trie.AddWordContainsPrefixes | SuffixIndex/src/main/java/rsvp/answering/index/trie/TrieTree.java:106-148 | After adding a non-blank word, every non-empty prefix of it is a prefix in the trie |
| Trie.AddWordOtherWords | SuffixIndex/src/main/java/rsvp/answering/index/trie/TrieTree.java:112-153 | Adding a word changes `containsWord` for no other string, so a prefix never added stays a non-word |
| Trie.AddWordIdempotent | SuffixIndex/src/main/java/rsvp/answering/index/trie/TrieTree.java:106-143 | Adding the same word twice is adding it once |
| TextUtils.Filter | trunk/SuffixIndex/src/main/java/rsvp/answering/index/gst/Utils.java:42-51 | Keeps only `a`-`z` and `0`-`9`, as a subsequence of its input, and keeps every occurrence of each such character |
| TextUtils.Normalize | trunk/SuffixIndex/src/main/java/rsvp/answering/index/common/Utils.java:39-52 | The result contains only `a`-`z` and `0`-`9`, is a subsequence of the lower-cased input, and keeps every occurrence of each such character of it |
| TextUtils.NormalizeIdempotent | SuffixIndex/src/main/java/com/abahgat/suffixtree/Utils.java:41-54 | Normalizing twice is normalizing once, for any lower-casing that leaves lower-case letters and digits alone |
| TextUtils.GetSubstrings | trunk/SuffixIndex/src/main/java/rsvp/answering/index/gst/Utils.java:59-73 | Exactly the set of `s[a..b]` with `0 <= a < b <= |s|` |
| TextUtils.SubstringsMembers | SuffixIndex/src/main/java/com/abahgat/suffixtree/Utils.java:61-75 | A string is in the set iff it is a non-empty contiguous substring; each has length between 1 and `|s|` |
| TextUtils.NoSubstringsOfEmpty | trunk/SuffixIndex/src/main/java/rsvp/answering/index/common/Utils.java:59-73 | The empty string has no substrings |
| TextUtils.SubstringsOfWrd | trunk/SuffixIndex/src/test/java/rsvp/answering/index/gst/SuffixTreeTest.java:300-307 | The substrings of "wrd" are w, r, d, wr, rd, wrd |
| TextUtils.GetPrefixes | trunk/SuffixIndex/src/main/java/rsvp/answering/index/common/Utils.java:75-84 | Exactly the `|s|` non-empty prefixes |
| TextUtils.GetSuffixes | trunk/SuffixIndex/src/main/java/rsvp/answering/index/common/Utils.java:86-95 | Exactly `s[i..]` for `0 <= i < |s| - 1`: never the last one-character suffix, and empty when `|s| <= 1` |
| IntBytes.ToInteger | trunk/SuffixIndex/src/main/java/rsvp/answering/index/common/Utils.java:227-230 | Fails iff fewer than four bytes are given; byte 0 gives the top eight bits and byte 3 the bottom eight |
| IntBytes.ToBytes | trunk/SuffixIndex/src/main/java/rsvp/answering/index/common/Utils.java:216-225 | Big-endian: byte 0 holds bits 31..24 and byte 3 bits 7..0, and `toInteger` gives the int back |
| IntBytes.BytesRoundTrip | trunk/SuffixIndex/src/main/java/rsvp/answering/index/common/Utils.java:216-230 | `toBytes(toInteger(b)) == b` for every four-byte array |

## Left out

- File loaders, drivers, printing, timing and `System.exit` are not modelled: `loadDictFile`, `buildTree`, `testCaseByCase`, `print`, `main`, `construct`, the file constructors and `TrieTree`'s file handling. They are I/O only.
- Reader and Writer mechanics of the binary codec are not modelled: UTF-8, file handles, and the exceptions swallowed by the reader, which leave a partial tree. The codec works on sequences of 16-bit units. A malformed stream decodes to `None`.
- Strings are `seq<char>`, and a Dafny `char` is a Unicode scalar value where a Java `char` is one UTF-16 code unit. The model agrees with Java only on text made of Basic Multilingual Plane characters that are not surrogates. Outside that range Java splits a character into two units, so suffixes starting at a low surrogate, substring and suffix sets (`Query`, `Construction`, `TextUtils`, `Trie`) and `EdgeBag`'s character order differ from the model, and a lone surrogate cannot be written as a model query.
- Codec.RoundTrip: holds only when every count, character, destination and id fits one non-surrogate 16-bit unit. `Writer.write(int)` keeps only the low 16 bits (`Codec.WideDestinationWraps`), and a lone surrogate would be replaced by the UTF-8 writer, which is not modelled.
- Codec.Encode: the writer iterates over a `HashSet` and a `HashMap` whose order the Java runtime decides. The model writes the elements in some fixed but unspecified order (`Enumerate`), and the round trip holds for any order.
- The trunk tree's text codec (`toStringFile` and the text reader) is not modelled. Its reader indexes the wrong string (`iss[0].charAt(i)`), so it does not read back what the writer writes.
- Construction.Update: the Java `while (!endpoint)` loop has no bound. The model passes a round bound, and `addWord` passes `|key| + 1` per character. That this bound is never reached is not proved, so on some input the model might report `OutOfFuel` where Java goes on. `Scenarios.RepeatThenExtend` shows one run that needs more rounds than the active text is long.
- Construction.UpdateLoop: states invariants only (well-formedness, acyclicity, ids grow only by `value`). It does not state that the end point is reached, or that the new character can be read after every pending suffix once the loop ends.
- Construction.AddWordFrom: its contract speaks of success only. A failure is `OutOfFuel` or `BadIndex`, and that neither occurs is not proved (see `Construction.Update`).
- Construction.AddWord: two properties are not proved. One is the end-to-end property: after `addWord(K, i)` and `flush`, every non-empty substring of `K` is found with `i`. The other is that `addWord` never fails with `OutOfFuel`. Both are proved for the word "cacao" only (`Scenarios.CacaoFound`, `Scenarios.CacaoTwice`). Proved instead are the invariants `addWord` keeps (well-formedness, acyclicity, ids only grow and only by `i`, the ordering check) and the local facts: `canonize` decomposition, what `testAndSplit` preserves and when it reports the end point, and what `addIndex` and `flush` leave at each node.
- Propagation.UpdateIndices: recursion is bounded by a depth parameter. `Flush` passes the number of nodes. `Wf` alone does not exclude a cycle of edges, on which Java's `updateIndices` would not terminate. What `flush` leaves at each node is proved for acyclic arenas (`FlushAcyclic`), and every tree `addWord` builds from a new one is acyclic.
- TrunkTree.GetData: which ids a bounded `getData(n)` returns depends on `HashSet` iteration order. The model fixes one order, and its contract states only the bound and the subset property.
- The trunk draft's construction (`put`, `update`, `testAndSplit`, `canonize`) is the same code as the main tree's, with process-wide static lists. It is modelled once, by `Construction`, on a per-tree arena. `Node.addRef` is `Propagation.AddIndex`.
- `EdgeBag` is modelled as the code behaves: once past the threshold, every new character re-sorts the arrays, so the arrays are sorted whenever binary search is used.
- `GSTEdge` with a `null` label: the arena never creates one. `equals` and `hashCode` on `null` labels are modelled through `Option` in `EqualsOf`/`LabelHash`, not as edges of the tree.
- `compare`, the JSON helpers, `ResultInfo`, `Pair` and `String.intern` are not modelled. The JSON helpers depend on libraries outside the repository, and `compare` compares a tree's sizes with themselves.
- `TrieEdge`, the trunk radix-trie draft (`trunk/.../trie/`) and `TrieTree.getWord` are not modelled. The radix trie does not compile, `TrieEdge` is unused, and `getWord` unboxes `null`.
- The private `TrieTree.contains(char[], boolean)` is not modelled on its own. Its two uses are `Trie.ContainsPrefix` and `Trie.ContainsWord`.
- `TrieTree.addWord` calls `getLable()` on nodes, which `TrieNode` does not define. The model reads it as `getValue()`, the path string, which is what the surrounding code needs.
- `TrieTree.nodes` is a static list shared by all tries. The model passes the pool explicitly (`Trie.Create` takes it).
- `TrieTree.getNode("")` indexes `argString[0]` and throws. The model returns `Failure(EmptyString)`, and so do `containsPrefix`, `containsWord` and `getPrefix` on "". A `null` argument is not modelled.
- Trie.AddWord: the Java code inserts the untrimmed word (trimming only decides whether to insert), and the model does the same.
- TextUtils.Normalize: `toLowerCase` is locale- and Unicode-dependent and is a parameter of the model. Idempotence assumes it leaves lower-case ASCII letters and digits unchanged.

## Findings

| source | as written | input that shows it | evidently intended | confidence | as-written member | corrected member |
|---|---|---|---|---|---|---|
| trunk/SuffixIndex/src/main/java/rsvp/answering/index/common/Utils.java:186-199 | `findLongestSubstring` calls `tree.match(w.substring(i))` and takes `.length()` of the result, but the draft `match` returns `null` when a suffix cannot be matched | an empty tree and the word "ab": `match("ab")` is `null`, so a `NullPointerException` is thrown | an unmatched suffix counts as the empty match, so the result is the first longest match, or "" | not executed | TrunkMatching.FindLongestAsWritten | TrunkMatching.FindLongest |
