/** `EdgeBag`: a small map from a character to an edge index, kept as two
    parallel arrays. Up to `Threshold` pairs are kept in insertion order and
    searched linearly; above it the arrays are sorted by character and
    searched by binary search. Each operation takes the bag and returns the
    updated one. A bag whose arrays were never allocated (Java `null`)
    behaves exactly like the empty bag, so the empty bag stands for both. */
module EdgeBag {

  const Threshold: nat := 6

  datatype Bag = Bag(chars: seq<char>, values: seq<int>)

  const Empty: Bag := Bag([], [])

  predicate Distinct(a: seq<char>)
  {
    forall i, j :: 0 <= i < j < |a| ==> a[i] != a[j]
  }

  predicate Sorted(a: seq<char>)
  {
    forall i, j :: 0 <= i < j < |a| ==> a[i] <= a[j]
  }

  /** The class invariant every operation keeps: parallel arrays of equal
      length, no character twice, and sorted whenever binary search is
      used. */
  predicate Valid(b: Bag)
  {
    && |b.chars| == |b.values|
    && Distinct(b.chars)
    && (|b.chars| > Threshold ==> Sorted(b.chars))
  }

  /** The (character, value) pairs, position by position. */
  function Pairs(b: Bag): (r: seq<(char, int)>)
    requires |b.chars| == |b.values|
    ensures |r| == |b.chars|
    ensures forall i :: 0 <= i < |r| ==> r[i] == (b.chars[i], b.values[i])
  {
    seq(|b.chars|, i requires 0 <= i < |b.chars| => (b.chars[i], b.values[i]))
  }

  /** `java.util.Arrays.binarySearch(chars, c)`: the index of `key`, or
      `-(insertion point) - 1` when it is absent. */
  method BinarySearch(a: seq<char>, key: char) returns (r: int)
    requires Sorted(a)
    ensures 0 <= r ==> r < |a| && a[r] == key
    ensures r < 0 ==> key !in a
    ensures r < 0 ==> var ip := -(r + 1);
      0 <= ip <= |a|
      && (forall i :: 0 <= i < ip ==> a[i] < key)
      && (forall i :: ip <= i < |a| ==> key < a[i])
  {
    var low, high := 0, |a| - 1;
    while low <= high
      invariant 0 <= low <= high + 1 <= |a|
      invariant forall i :: 0 <= i < low ==> a[i] < key
      invariant forall i :: high < i < |a| ==> key < a[i]
    {
      var mid := (low + high) / 2;
      if a[mid] < key {
        low := mid + 1;
      } else if key < a[mid] {
        high := mid - 1;
      } else {
        return mid;
      }
    }
    r := -(low + 1);
  }

  /** The scan `search` uses at or below the threshold. */
  method LinearSearch(a: seq<char>, key: char) returns (r: int)
    ensures 0 <= r ==> r < |a| && a[r] == key && key !in a[..r]
    ensures r < 0 <==> key !in a
    ensures r < 0 ==> r == -1
  {
    var i := 0;
    while i < |a|
      invariant 0 <= i <= |a|
      invariant key !in a[..i]
    {
      if key == a[i] {
        return i;
      }
      i := i + 1;
    }
    assert a[..i] == a;
    r := -1;
  }

  /** `search(c)`: a non-negative result is the position of `c`, a negative
      one says `c` is not stored. */
  method Search(b: Bag, c: char) returns (idx: int)
    requires Valid(b)
    ensures 0 <= idx ==> idx < |b.chars| && b.chars[idx] == c
    ensures idx < 0 <==> c !in b.chars
  {
    if |b.chars| > Threshold {
      idx := BinarySearch(b.chars, c);
    } else {
      idx := LinearSearch(b.chars, c);
    }
  }

  /** `get(c)`: the value stored with `c`, or -1 when `c` is absent. */
  method Get(b: Bag, c: char) returns (r: int)
    requires Valid(b)
    ensures c !in b.chars ==> r == -1
    ensures forall i :: 0 <= i < |b.chars| && b.chars[i] == c ==> r == b.values[i]
  {
    var idx := Search(b, c);
    if idx < 0 {
      r := -1;
    } else {
      r := b.values[idx];
    }
  }

  /** `a` with positions `j - 1` and `j` exchanged. */
  function Swap<T>(a: seq<T>, j: int): (r: seq<T>)
    requires 0 < j < |a|
    ensures |r| == |a| && r[j - 1] == a[j] && r[j] == a[j - 1]
    ensures forall k :: 0 <= k < |a| && k != j - 1 && k != j ==> r[k] == a[k]
  {
    a[j - 1 := a[j]][j := a[j - 1]]
  }

  /** Swaps positions `j - 1` and `j` of both arrays. */
  function SwapDown(b: Bag, j: int): (r: Bag)
    requires |b.chars| == |b.values|
    requires 0 < j < |b.chars|
    ensures |r.chars| == |r.values| == |b.chars|
    ensures r.chars == Swap(b.chars, j)
    ensures multiset(Pairs(r)) == multiset(Pairs(b))
    ensures Distinct(b.chars) ==> Distinct(r.chars)
  {
    var r := Bag(Swap(b.chars, j), Swap(b.values, j));
    assert Pairs(r) == Swap(Pairs(b), j);
    r
  }

  /** Where the inner loop of the insertion sort stands with `j` between 0
      and `i`: the part below `j` is sorted, the part from `j` to `i` is
      sorted, and nothing below `j` exceeds anything above it. */
  ghost predicate SiftInv(a: seq<char>, j: int, i: int)
    requires 0 <= j <= i < |a|
  {
    && (forall p, q :: 0 <= p < q < j ==> a[p] <= a[q])
    && (forall p, q :: j <= p < q <= i ==> a[p] <= a[q])
    && (forall p, q :: 0 <= p < j < q <= i ==> a[p] <= a[q])
  }

  /** One step of the inner loop keeps its invariant one place lower. */
  lemma {:induction false} SiftStep(a: seq<char>, j: int, i: int)
    requires 0 < j <= i < |a| && SiftInv(a, j, i)
    ensures SiftInv(if a[j - 1] > a[j] then Swap(a, j) else a, j - 1, i)
  {
    if a[j - 1] > a[j] {
      var b := Swap(a, j);
      forall p, q | j - 1 <= p < q <= i ensures b[p] <= b[q] {
        if p == j - 1 && q > j {
          assert a[j] <= a[q];
        } else if p == j {
          assert a[j - 1] <= a[q];
        }
      }
      forall p, q | 0 <= p < j - 1 < q <= i ensures b[p] <= b[q] {
        if q == j {
          assert a[p] <= a[j - 1];
        } else {
          assert a[p] <= a[q];
        }
      }
    } else {
      forall p, q | j - 1 <= p < q <= i ensures a[p] <= a[q] {
        if p == j - 1 && q > j {
          assert a[p] <= a[q];
        }
      }
      forall p, q | 0 <= p < j - 1 < q <= i ensures a[p] <= a[q] {
        if q == j {
          assert a[p] <= a[j - 1];
        }
      }
    }
  }

  /** One pass of the inner loop of `sortArrays()`: walks `j` from `i` down
      to 1, swapping out-of-order neighbours, which moves the character at
      `i` into place in the sorted prefix. */
  method SiftDown(b: Bag, i: int) returns (r: Bag)
    requires |b.chars| == |b.values|
    requires 0 <= i < |b.chars|
    requires forall p, q :: 0 <= p < q < i ==> b.chars[p] <= b.chars[q]
    ensures |r.chars| == |r.values| == |b.chars|
    ensures multiset(Pairs(r)) == multiset(Pairs(b))
    ensures Distinct(b.chars) ==> Distinct(r.chars)
    ensures forall p, q :: 0 <= p < q <= i ==> r.chars[p] <= r.chars[q]
  {
    r := b;
    var j := i;
    while j > 0
      invariant 0 <= j <= i
      invariant |r.chars| == |r.values| == |b.chars|
      invariant multiset(Pairs(r)) == multiset(Pairs(b))
      invariant Distinct(b.chars) ==> Distinct(r.chars)
      invariant SiftInv(r.chars, j, i)
    {
      SiftStep(r.chars, j, i);
      if r.chars[j - 1] > r.chars[j] {
        r := SwapDown(r, j);
      }
      j := j - 1;
    }
  }

  /** `sortArrays()`: insertion sort on `chars`, moving `values` along, so
      the character-to-value pairs are permuted, not changed. */
  method SortArrays(b: Bag) returns (r: Bag)
    requires |b.chars| == |b.values|
    ensures |r.chars| == |r.values| == |b.chars|
    ensures Sorted(r.chars)
    ensures multiset(Pairs(r)) == multiset(Pairs(b))
    ensures Distinct(b.chars) ==> Distinct(r.chars)
  {
    r := b;
    var i := 0;
    while i < |b.chars|
      invariant 0 <= i <= |b.chars|
      invariant |r.chars| == |r.values| == |b.chars|
      invariant multiset(Pairs(r)) == multiset(Pairs(b))
      invariant Distinct(b.chars) ==> Distinct(r.chars)
      invariant forall p, q :: 0 <= p < q < i ==> r.chars[p] <= r.chars[q]
    {
      r := SiftDown(r, i);
      i := i + 1;
    }
  }

  /** `put(c, e)`: overwrite the value of a stored character in place, or
      append the new pair and re-sort once the bag holds more than
      `Threshold` characters. */
  method Put(b: Bag, c: char, e: int) returns (r: Bag)
    requires Valid(b)
    ensures Valid(r)
    ensures c in r.chars
    ensures forall p :: p in Pairs(r) <==> p == (c, e) || (p in Pairs(b) && p.0 != c)
    ensures c in b.chars ==> r.chars == b.chars
    ensures c in b.chars ==> forall i :: 0 <= i < |b.chars| ==>
      r.values[i] == if b.chars[i] == c then e else b.values[i]
    ensures c !in b.chars ==> |r.chars| == |b.chars| + 1
    ensures c !in b.chars ==> multiset(Pairs(r)) == multiset(Pairs(b) + [(c, e)])
    ensures c !in b.chars && |b.chars| < Threshold ==>
      r.chars == b.chars + [c] && r.values == b.values + [e]
  {
    var idx := Search(b, c);
    if idx < 0 {
      r := Bag(b.chars + [c], b.values + [e]);
      assert Pairs(r) == Pairs(b) + [(c, e)];
      assert Distinct(r.chars);
      if |r.chars| > Threshold {
        r := SortArrays(r);
      }
      AppendedPairs(b, c, e, r);
    } else {
      r := Bag(b.chars, b.values[idx := e]);
      OverwrittenPairs(b, c, e, idx);
    }
    assert (c, e) in Pairs(r);
  }

  /** The pairs of a bag holding the pairs of `b` plus a new `(c, e)`. */
  lemma {:induction false} AppendedPairs(b: Bag, c: char, e: int, r: Bag)
    requires |b.chars| == |b.values| && |r.chars| == |r.values| && c !in b.chars
    requires multiset(Pairs(r)) == multiset(Pairs(b) + [(c, e)])
    ensures forall p :: p in Pairs(r) <==> p == (c, e) || (p in Pairs(b) && p.0 != c)
  {
    forall p ensures p in Pairs(r) <==> p == (c, e) || (p in Pairs(b) && p.0 != c) {
      assert p in Pairs(r) <==> p in multiset(Pairs(r));
      assert p in Pairs(b) ==> p.0 in b.chars;
    }
  }

  /** The pairs of `b` after its value at `idx`, the slot of `c`, becomes
      `e`. */
  lemma {:induction false} OverwrittenPairs(b: Bag, c: char, e: int, idx: int)
    requires |b.chars| == |b.values| && Distinct(b.chars)
    requires 0 <= idx < |b.chars| && b.chars[idx] == c
    ensures forall p :: p in Pairs(Bag(b.chars, b.values[idx := e])) <==>
      p == (c, e) || (p in Pairs(b) && p.0 != c)
  {
    var r := Bag(b.chars, b.values[idx := e]);
    forall p ensures p in Pairs(r) <==> p == (c, e) || (p in Pairs(b) && p.0 != c) {
      if p in Pairs(r) {
        var i :| 0 <= i < |Pairs(r)| && Pairs(r)[i] == p;
        if i != idx {
          assert Pairs(b)[i] == p;
        }
      }
      if p in Pairs(b) && p.0 != c {
        var i :| 0 <= i < |Pairs(b)| && Pairs(b)[i] == p;
        assert Pairs(r)[i] == p;
      }
      if p == (c, e) {
        assert Pairs(r)[idx] == p;
      }
    }
  }

  /** `values()`: the stored edge indices; empty for a fresh bag. */
  function Values(b: Bag): (r: seq<int>)
    requires Valid(b)
    ensures |r| == |b.chars|
    ensures forall i :: 0 <= i < |r| ==> (b.chars[i], r[i]) in Pairs(b)
  {
    b.values
  }

  lemma {:induction false} FreshBagIsEmpty()
    ensures Valid(Empty) && Values(Empty) == []
  {
  }

  /** After `put(c, e)`, `get(c)` returns `e` and every other character
      keeps its value. */
  method PutThenGet(b: Bag, c: char, e: int, d: char) returns (got: int, other: int, before: int)
    requires Valid(b)
    requires d != c
    ensures got == e
    ensures other == before
  {
    var r := Put(b, c, e);
    got := Get(r, c);
    other := Get(r, d);
    before := Get(b, d);
    if d in b.chars {
      var i :| 0 <= i < |b.chars| && b.chars[i] == d;
      assert Pairs(b)[i] in Pairs(r);
    }
    var k :| 0 <= k < |r.chars| && r.chars[k] == c;
    assert (c, e) in Pairs(r);
  }
}
