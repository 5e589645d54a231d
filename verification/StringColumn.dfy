/** String columns in memory: one byte buffer and an index into it. */
module StringColumn {

  /** Strings stored end to end; string `i` lies between offsets `i` and `i + 1`. */
  datatype Strings = Strings(offsets: seq<nat>, bytes: seq<bv8>)

  ghost predicate WellFormed(a: Strings) {
    && |a.offsets| > 0 && a.offsets[|a.offsets| - 1] <= |a.bytes|
    && forall i, j :: 0 <= i < j < |a.offsets| ==> a.offsets[i] <= a.offsets[j]
  }

  ghost function StringAt(a: Strings, i: nat): seq<bv8>
    requires WellFormed(a) && i + 1 < |a.offsets|
  {
    a.bytes[a.offsets[i]..a.offsets[i + 1]]
  }

  ghost function Decoded(a: Strings): seq<seq<bv8>>
    requires WellFormed(a)
  {
    seq(|a.offsets| - 1, i requires 0 <= i < |a.offsets| - 1 => StringAt(a, i))
  }

  lemma AppendString(a: Strings, more: seq<bv8>)
    requires WellFormed(a) && a.offsets[|a.offsets| - 1] == |a.bytes|
    ensures var b := Strings(a.offsets + [|a.bytes| + |more|], a.bytes + more);
            WellFormed(b) && Decoded(b) == Decoded(a) + [more]
  {
    var b := Strings(a.offsets + [|a.bytes| + |more|], a.bytes + more);
    forall i | 0 <= i < |Decoded(a)|
      ensures Decoded(b)[i] == Decoded(a)[i]
    {
      assert a.offsets[i + 1] <= |a.bytes|;
      assert StringAt(b, i) == StringAt(a, i);
    }
    var n := |a.offsets| - 1;
    assert StringAt(b, n) == b.bytes[|a.bytes|..] == more;
    assert Decoded(b) == Decoded(b)[..n] + [Decoded(b)[n]];
  }

  lemma NoStrings(a: Strings)
    requires a == Strings([0], [])
    ensures WellFormed(a) && Decoded(a) == []
  {
  }

  lemma StringIs(a: Strings, i: nat)
    requires WellFormed(a) && i < |Decoded(a)|
    ensures i + 1 < |a.offsets| && a.offsets[i] <= a.offsets[i + 1] <= |a.bytes|
    ensures Decoded(a)[i] == a.bytes[a.offsets[i]..a.offsets[i + 1]]
  {
  }
}
