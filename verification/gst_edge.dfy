/** `GSTEdge`: an edge of the suffix tree, a label (field `text`) together with the index
    of the node it leads to. The arena edges always carry a label; the
    `null` label the Java class tolerates is modelled only where `equals`
    and `hashCode` look at it, through `Option`. */
module GstEdge {
  import opened Outcomes
  import opened Strings

  datatype Edge = Edge(text: string, dest: int)

  /** The constructor `GSTEdge(text, dest)`. */
  function NewEdge(text: string, dest: int): (e: Edge)
    ensures e.text == text && e.dest == dest
  {
    Edge(text, dest)
  }

  /** `setLabel`: only the label changes. */
  function SetLabel(e: Edge, text: string): (r: Edge)
    ensures r.text == text && r.dest == e.dest
  {
    e.(text := text)
  }

  /** `setDest`: only the destination changes. */
  function SetDest(e: Edge, dest: int): (r: Edge)
    ensures r.dest == dest && r.text == e.text
  {
    e.(dest := dest)
  }

  /** The two setters touch different fields: applied in either order they
      build the edge the constructor would, and an edge compares equal to
      itself after a setter exactly when the setter kept the old value. */
  lemma {:induction false} SettersIndependent(e: Edge, text: string, dest: int)
    ensures SetDest(SetLabel(e, text), dest) == NewEdge(text, dest)
    ensures SetLabel(SetDest(e, dest), text) == NewEdge(text, dest)
    ensures Equals(SetLabel(e, text), e) <==> text == e.text
    ensures Equals(SetDest(e, dest), e) <==> dest == e.dest
  {
  }

  /** Java `int` arithmetic: an unbounded integer reduced to 32 bits. */
  function Wrap(x: int): bv32
  {
    (x % 0x1_0000_0000) as bv32
  }

  /** `String.hashCode`: `h = 31 * h + c` over the characters, wrapping. */
  function StringHash(s: string): bv32
  {
    if s == [] then 0 else 31 * StringHash(s[..|s| - 1]) + Wrap(s[|s| - 1] as int)
  }

  /** `label == null ? 0 : label.hashCode()`. */
  function LabelHash(l: Option<string>): (r: bv32)
    ensures l.None? ==> r == 0
  {
    match l
    case None => 0
    case Some(s) => StringHash(s)
  }

  /** The `hashCode` of an edge with a possibly-null label. */
  function HashOf(text: Option<string>, dest: int): bv32
  {
    31 * (31 * 1 + Wrap(dest)) + LabelHash(text)
  }

  /** `hashCode`. */
  function HashCode(e: Edge): bv32
  {
    HashOf(Some(e.text), e.dest)
  }

  /** The null-aware label comparison inside `equals`: two nulls are
      equal, a null and a string are not, two strings compare by contents. */
  function LabelEquals(a: Option<string>, b: Option<string>): (r: bool)
    ensures r <==> a == b
  {
    match a
    case None => b.None?
    case Some(s) => b.Some? && s == b.value
  }

  /** `equals` on two edges given as their fields, with possibly-null
      labels: equal exactly when the fields are, and equal edges hash
      alike. */
  function EqualsOf(la: Option<string>, da: int, lb: Option<string>, db: int): (r: bool)
    ensures r <==> da == db && la == lb
    ensures r ==> HashOf(la, da) == HashOf(lb, db)
  {
    if da != db then false
    else LabelEquals(la, lb)
  }

  /** `equals` on arena edges. */
  function Equals(a: Edge, b: Edge): (r: bool)
    ensures r <==> a == b
    ensures r ==> HashCode(a) == HashCode(b)
  {
    EqualsOf(Some(a.text), a.dest, Some(b.text), b.dest)
  }

  /** `toString`: the label, a tab, then the destination in decimal; the
      destination can be read back from the text after the tab. */
  function ToString(e: Edge): (r: string)
    ensures |r| > |e.text| + 1
    ensures r[..|e.text|] == e.text && r[|e.text|] == '\t'
    ensures ParseInt(r[|e.text| + 1..]) == Some(e.dest)
  {
    var digits := IntToString(e.dest);
    ParseIntToString(e.dest);
    var r := e.text + "\t" + digits;
    assert r[|e.text| + 1..] == digits;
    r
  }
}
