/** The test-side string helpers of the three `Utils` classes: key
    normalisation and the substring, prefix and suffix sets. The three
    files carry identical copies of `normalize` and `getSubstrings`, so each
    is modelled once here. */
module TextUtils {
  import opened Strings

  /** The characters `normalize` keeps after lower-casing. */
  predicate IsLowerAlnum(c: char)
  {
    'a' <= c <= 'z' || '0' <= c <= '9'
  }

  predicate AllLowerAlnum(s: string)
  {
    forall i :: 0 <= i < |s| ==> IsLowerAlnum(s[i])
  }

  /** `a` can be obtained from `b` by deleting characters. */
  predicate IsSubsequence(a: string, b: string)
    decreases |b|
  {
    if a == [] then true
    else if b == [] then false
    else if a[0] == b[0] then IsSubsequence(a[1..], b[1..])
    else IsSubsequence(a, b[1..])
  }

  /** The loop of `normalize`: keep the characters in 'a'..'z' and '0'..'9',
      in order. Every such character is kept as often as it occurs, which
      together with the subsequence clause fixes the result. */
  function Filter(l: string): (r: string)
    ensures AllLowerAlnum(r)
    ensures IsSubsequence(r, l)
    ensures forall c :: IsLowerAlnum(c) ==> multiset(r)[c] == multiset(l)[c]
    ensures |r| <= |l|
    decreases |l|
  {
    if l == [] then []
    else
      assert l == [l[0]] + l[1..];
      if IsLowerAlnum(l[0]) then [l[0]] + Filter(l[1..])
      else Filter(l[1..])
  }

  /** `normalize(in)`. Java's locale-dependent `toLowerCase` is a parameter:
      the model makes no assumption about what it does. */
  function Normalize(lower: string -> string, s: string): (r: string)
    ensures AllLowerAlnum(r)
    ensures IsSubsequence(r, lower(s))
    ensures forall c :: IsLowerAlnum(c) ==> multiset(r)[c] == multiset(lower(s))[c]
  {
    Filter(lower(s))
  }

  /** The filter leaves an already normalised string alone. */
  lemma {:induction false} FilterFixesNormalized(s: string)
    requires AllLowerAlnum(s)
    ensures Filter(s) == s
    decreases |s|
  {
    if s != [] {
      FilterFixesNormalized(s[1..]);
    }
  }

  /** Lower-casing leaves strings of 'a'..'z' and '0'..'9' unchanged. */
  ghost predicate LowerFixesNormalized(lower: string -> string)
  {
    forall s :: AllLowerAlnum(s) ==> lower(s) == s
  }

  /** Normalising twice is normalising once, for any lower-casing that leaves
      'a'..'z' and '0'..'9' alone. */
  lemma {:induction false} NormalizeIdempotent(lower: string -> string, s: string)
    requires LowerFixesNormalized(lower)
    ensures Normalize(lower, Normalize(lower, s)) == Normalize(lower, s)
  {
    var n := Normalize(lower, s);
    assert lower(n) == n;
    FilterFixesNormalized(n);
  }

  /** Every non-empty contiguous block of `s`. */
  ghost function Substrings(s: string): set<string>
  {
    set a, b | 0 <= a < b <= |s| :: s[a..b]
  }

  /** The substrings of `s` shorter than `len`, plus those of length `len`
      starting before `start`: what the loops of `getSubstrings` have
      collected so far. */
  ghost function SubstringsSoFar(s: string, len: int, start: int): set<string>
  {
    set a, b | 0 <= a < b <= |s| && (b - a < len || (b - a == len && a < start)) :: s[a..b]
  }

  lemma {:induction false} SoFarNextStart(s: string, len: int, start: int)
    requires 1 <= len && 0 <= start && start + len <= |s|
    ensures SubstringsSoFar(s, len, start + 1)
         == SubstringsSoFar(s, len, start) + {s[start..start + len]}
  {
    var next := SubstringsSoFar(s, len, start + 1);
    forall x | x in next
      ensures x in SubstringsSoFar(s, len, start) + {s[start..start + len]}
    {
      var a, b :| 0 <= a < b <= |s| && (b - a < len || (b - a == len && a < start + 1)) && s[a..b] == x;
      if a != start || b - a != len {
        assert x in SubstringsSoFar(s, len, start);
      }
    }
    assert s[start..start + len] in next;
  }

  lemma {:induction false} SoFarNextLen(s: string, len: int)
    requires 1 <= len <= |s|
    ensures SubstringsSoFar(s, len, |s| - len + 1) == SubstringsSoFar(s, len + 1, 0)
  {
    var x1 := SubstringsSoFar(s, len, |s| - len + 1);
    var x2 := SubstringsSoFar(s, len + 1, 0);
    forall x | x in x2 ensures x in x1 {
      var a, b :| 0 <= a < b <= |s| && b - a < len + 1 && s[a..b] == x;
      assert b - a < len || (b - a == len && a < |s| - len + 1);
    }
  }

  lemma {:induction false} SoFarAll(s: string)
    ensures SubstringsSoFar(s, |s| + 1, 0) == Substrings(s)
  {
  }

  /** `getSubstrings(str)`: by increasing length, by increasing start. */
  method GetSubstrings(s: string) returns (ret: set<string>)
    ensures ret == Substrings(s)
  {
    ret := {};
    var len := 1;
    while len <= |s|
      invariant 1 <= len <= |s| + 1
      invariant ret == SubstringsSoFar(s, len, 0)
    {
      var start := 0;
      while start + len <= |s|
        invariant 0 <= start <= |s| - len + 1
        invariant ret == SubstringsSoFar(s, len, start)
      {
        SoFarNextStart(s, len, start);
        ret := ret + {s[start..start + len]};
        start := start + 1;
      }
      SoFarNextLen(s, len);
      len := len + 1;
    }
    SoFarAll(s);
  }

  /** The members of `getSubstrings(s)` are exactly the non-empty substrings
      of `s`, with lengths between 1 and `|s|`; so the set is empty for the
      empty string. */
  lemma {:induction false} SubstringsMembers(s: string, x: string)
    ensures x in Substrings(s) <==> (|x| >= 1 && IsSubstring(x, s))
    ensures x in Substrings(s) ==> 1 <= |x| <= |s|
  {
    if |x| >= 1 && IsSubstring(x, s) {
      var a, b :| 0 <= a <= b <= |s| && s[a..b] == x;
      assert x in Substrings(s);
    }
  }

  lemma {:induction false} NoSubstringsOfEmpty()
    ensures Substrings("") == {}
  {
  }

  /** The example of the test suite: the substrings of "wrd". */
  lemma {:induction false} SubstringsOfWrd()
    ensures Substrings("wrd") == {"w", "r", "d", "wr", "rd", "wrd"}
  {
    var s := "wrd";
    assert s[0..1] == "w" && s[1..2] == "r" && s[2..3] == "d";
    assert s[0..2] == "wr" && s[1..3] == "rd" && s[0..3] == "wrd";
    forall x | x in Substrings(s)
      ensures x in {"w", "r", "d", "wr", "rd", "wrd"}
    {
      var a, b :| 0 <= a < b <= 3 && s[a..b] == x;
      assert (a, b) in {(0, 1), (1, 2), (2, 3), (0, 2), (1, 3), (0, 3)};
    }
  }

  ghost function Prefixes(s: string): set<string>
  {
    set i | 1 <= i <= |s| :: s[..i]
  }

  /** `getPrefixes(str)`: the non-empty prefixes, collected shortest first. */
  method GetPrefixes(s: string) returns (ret: set<string>)
    ensures ret == Prefixes(s)
    ensures |ret| == |s|
  {
    ret := {};
    var i := 1;
    while i <= |s|
      invariant 1 <= i <= |s| + 1
      invariant ret == set k | 1 <= k < i :: s[..k]
      invariant |ret| == i - 1
    {
      assert s[..i] !in ret by {
        forall k | 1 <= k < i
          ensures s[..k] != s[..i]
        {
          assert |s[..k]| != |s[..i]|;
        }
      }
      ret := ret + {s[..i]};
      i := i + 1;
    }
  }

  ghost function Suffixes(s: string): set<string>
  {
    set i | 0 <= i < |s| - 1 :: s[i..]
  }

  /** `getSuffixes(str)`: the loop stops before the last index, so the
      one-character suffix is left out and strings of length at most one
      have no suffixes at all. */
  method GetSuffixes(s: string) returns (ret: set<string>)
    ensures ret == Suffixes(s)
    ensures forall x :: x in ret ==> 2 <= |x| <= |s|
    ensures |s| <= 1 ==> ret == {}
    ensures |s| >= 1 ==> s[|s| - 1..] !in ret
  {
    ret := {};
    var i := 0;
    while i < |s| - 1
      invariant 0 <= i <= |s|
      invariant ret == set k | 0 <= k < i && k < |s| - 1 :: s[k..]
    {
      ret := ret + {s[i..]};
      i := i + 1;
    }
  }
}
