/**
 Inserting columns of records into the blocks of a table. A block holds as many records as fit into its
 capacity; records that do not fit go to new blocks.
 */
module BulkInsert {
  import opened StringColumn

  datatype Column = Ints(values: seq<int>) | Texts(strings: Strings)
  datatype Cell = Number(value: int) | Text(bytes: seq<bv8>)

  const INT_WIDTH := 8

  predicate SameKind(a: Column, b: Column) { a.Ints? == b.Ints? }

  /** A readable column; the offsets of its strings are a valid index. */
  ghost predicate Readable(c: Column) {
    c.Texts? ==> WellFormed(c.strings)
  }

  ghost function Cells(c: Column): seq<Cell>
    requires Readable(c)
  {
    match c
    case Ints(v) => seq(|v|, i requires 0 <= i < |v| => Number(v[i]))
    case Texts(s) => var d := Decoded(s); seq(|d|, i requires 0 <= i < |d| => Text(d[i]))
  }

  /** The strings of the column end at the end of its bytes. */
  ghost predicate Ended(c: Column) {
    Readable(c) && (c.Texts? ==> c.strings.offsets[|c.strings.offsets| - 1] == |c.strings.bytes|)
  }

  /** A column of a block: its strings start at byte 0 and end at the end of its bytes. */
  ghost predicate Packed(c: Column) {
    Ended(c) && (c.Texts? ==> c.strings.offsets[0] == 0)
  }

  /** A column handed in: it is not a slice, so its index starts at 0. */
  ghost predicate Unsliced(c: Column) {
    Readable(c) && (c.Texts? ==> c.strings.offsets[0] == 0)
  }

  // ---------- Sizes ----------

  ghost function CellsBytes(c: Column, a: nat, b: nat): nat
    requires Readable(c) && a <= b <= |Cells(c)|
  {
    match c
    case Ints(_) => INT_WIDTH * (b - a)
    case Texts(s) => TextBytes(s, a, b)
  }

  ghost function TextBytes(s: Strings, a: nat, b: nat): nat
    requires WellFormed(s) && a <= b < |s.offsets|
  {
    s.offsets[b] - s.offsets[a]
  }

  ghost predicate Table(cols: seq<Column>, rows: nat) {
    forall c :: 0 <= c < |cols| ==> Readable(cols[c]) && |Cells(cols[c])| == rows
  }

  /** The bytes of the records in [a, b), column by column. */
  ghost function Bytes(cols: seq<Column>, rows: nat, a: nat, b: nat): nat
    requires Table(cols, rows) && a <= b <= rows
  {
    if cols == [] then 0 else
      var n := |cols| - 1;
      Bytes(cols[..n], rows, a, b) + CellsBytes(cols[n], a, b)
  }

  lemma {:induction false} BytesAdd(cols: seq<Column>, rows: nat, a: nat, b: nat, c: nat)
    requires Table(cols, rows) && a <= b <= c <= rows
    ensures Bytes(cols, rows, a, b) + Bytes(cols, rows, b, c) == Bytes(cols, rows, a, c)
    decreases |cols|
  {
    if cols != [] {
      BytesAdd(cols[..|cols| - 1], rows, a, b, c);
    }
  }

  /** The bytes a column of a block takes. */
  function Stored(c: Column): nat {
    match c
    case Ints(v) => INT_WIDTH * |v|
    case Texts(s) => |s.bytes|
  }

  function StoredAll(cols: seq<Column>): nat {
    if cols == [] then 0 else StoredAll(cols[..|cols| - 1]) + Stored(cols[|cols| - 1])
  }

  // ---------- Appending to a column ----------

  /**
   The new index of a string column: the old one is extended by the offsets of `n` input strings from number
   `from` on, rebased to the end of the old bytes. Input starting at its first string is rebased without
   subtracting its first offset.
   */
  ghost function Rebased(index: seq<nat>, input: seq<nat>, from: nat, n: nat): (r: seq<int>)
    requires |index| > 0 && from + n < |input|
    ensures |r| == |index| + n
  {
    var last := |index| - 1;
    var current: int := index[last];
    var origin: int := if from == 0 then 0 else input[from];
    index[..last] + seq(n + 1, k requires 0 <= k <= n => if k == 0 && from != 0 then current else current + input[from + k] - origin)
  }

  method RebaseOffsets(index: seq<nat>, input: seq<nat>, from: nat, n: nat) returns (offsets: seq<int>)
    requires |index| > 0 && from + n < |input|
    ensures offsets == Rebased(index, input, from, n)
  {
    var rows := |index| - 1;
    var current: int := index[rows];
    if from == 0 {
      offsets := index[..rows] + input[..n + 1];
      for k := 0 to n + 1
        invariant |offsets| == |index| + n
        invariant forall i :: 0 <= i < rows ==> offsets[i] == index[i]
        invariant forall i :: rows <= i <= rows + n ==> offsets[i] == input[i - rows] + (if i - rows < k then current else 0)
      {
        offsets := offsets[rows + k := offsets[rows + k] + current];
      }
    } else {
      offsets := index + input[from + 1..from + n + 1];
      for k := 1 to n + 1
        invariant |offsets| == |index| + n
        invariant forall i :: 0 <= i <= rows ==> offsets[i] == index[i]
        invariant forall i :: rows < i <= rows + n ==> offsets[i] == input[from + (i - rows)] + (if i - rows < k then current - input[from] else 0)
      {
        offsets := offsets[rows + k := offsets[rows + k] + (current - input[from])];
      }
    }
  }

  /** `r` holds the strings of `s` and then `n` strings of `input` from number `from` on. */
  ghost predicate Extended(s: Strings, input: Strings, from: nat, n: nat, r: Strings)
    requires WellFormed(s) && WellFormed(input) && from + n < |input.offsets|
  {
    var rows := |s.offsets| - 1;
    && |r.offsets| == rows + n + 1 && s.offsets[rows] == |s.bytes|
    && (forall i :: 0 <= i <= rows ==> r.offsets[i] == s.offsets[i])
    && (forall i :: rows <= i <= rows + n ==> r.offsets[i] == |s.bytes| + input.offsets[from + (i - rows)] - input.offsets[from])
    && r.bytes == s.bytes + input.bytes[input.offsets[from]..input.offsets[from + n]]
  }

  /**
   The bytes between the end of the stored strings and the place the new bytes are copied to. There are none, unless
   the input is taken from its first string and that has an offset above 0. `spare` is what the memory holds there.
   */
  function Gap(input: Strings, from: nat, spare: nat -> bv8): (gap: seq<bv8>)
    requires |input.offsets| > 0
    ensures |gap| == if from == 0 then input.offsets[0] else 0
  {
    seq(if from == 0 then input.offsets[0] else 0, i requires 0 <= i => spare(i))
  }

  /** The strings of `s` with `gap` taken for the end of the last one. */
  ghost function Widen(s: Strings, gap: seq<bv8>): Strings
    requires WellFormed(s)
  {
    var last := |s.offsets| - 1;
    Strings(s.offsets[last := s.offsets[last] + |gap|], s.bytes + gap)
  }

  ghost function WidenLast(strings: seq<seq<bv8>>, gap: seq<bv8>): seq<seq<bv8>> {
    if strings == [] then [] else strings[..|strings| - 1] + [strings[|strings| - 1] + gap]
  }

  lemma WidenedStrings(s: Strings, gap: seq<bv8>)
    requires WellFormed(s) && s.offsets[|s.offsets| - 1] == |s.bytes|
    ensures var w := Widen(s, gap);
            && WellFormed(w) && |w.offsets| == |s.offsets| && w.offsets[|w.offsets| - 1] == |w.bytes|
            && Decoded(w) == WidenLast(Decoded(s), gap)
  {
    var w, rows := Widen(s, gap), |s.offsets| - 1;
    assert WellFormed(w);
    forall i | 0 <= i < rows
      ensures Decoded(w)[i] == WidenLast(Decoded(s), gap)[i]
    {
      WidenedAt(s, gap, i);
    }
  }

  lemma WidenedAt(s: Strings, gap: seq<bv8>, i: nat)
    requires WellFormed(s) && s.offsets[|s.offsets| - 1] == |s.bytes| && WellFormed(Widen(s, gap)) && i < |s.offsets| - 1
    ensures StringAt(Widen(s, gap), i) == if i == |s.offsets| - 2 then StringAt(s, i) + gap else StringAt(s, i)
  {
    var w := Widen(s, gap);
    assert s.offsets[i] <= s.offsets[i + 1] <= |s.bytes|;
    if i == |s.offsets| - 2 {
      assert w.bytes[s.offsets[i]..|w.bytes|] == s.bytes[s.offsets[i]..] + gap;
    }
  }

  lemma NoGap(strings: seq<seq<bv8>>, gap: seq<bv8>)
    ensures WidenLast(strings, gap) == strings <==> strings == [] || gap == []
  {
    if strings != [] {
      var last := strings[|strings| - 1];
      assert |last + gap| == |last| + |gap|;
      assert WidenLast(strings, gap)[|strings| - 1] == last + gap;
      assert gap == [] ==> last + gap == last;
    }
  }

  lemma RebasedExtends(s: Strings, input: Strings, from: nat, n: nat, gap: seq<bv8>, r: Strings)
    requires WellFormed(s) && WellFormed(input) && from + n < |input.offsets| && |gap| == (if from == 0 then input.offsets[0] else 0)
    requires s.offsets[|s.offsets| - 1] == |s.bytes| && r.offsets == Rebased(s.offsets, input.offsets, from, n)
    requires r.bytes == s.bytes + gap + input.bytes[input.offsets[from]..input.offsets[from + n]]
    ensures WellFormed(Widen(s, gap)) && Extended(Widen(s, gap), input, from, n, r)
  {
    hide Decoded;
    WidenedStrings(s, gap);
  }

  lemma ExtendedRises(s: Strings, input: Strings, from: nat, n: nat, r: Strings)
    requires WellFormed(s) && WellFormed(input) && from + n < |input.offsets| && Extended(s, input, from, n, r)
    ensures WellFormed(r) && r.offsets[|r.offsets| - 1] == |r.bytes| && r.offsets[0] == s.offsets[0]
  {
    var rows := |s.offsets| - 1;
    assert r.offsets[rows + n] == |s.bytes| + input.offsets[from + n] - input.offsets[from];
    forall i, j | 0 <= i < j < |r.offsets|
      ensures r.offsets[i] <= r.offsets[j]
    {
      if j > rows {
        assert input.offsets[from] <= input.offsets[from + (j - rows)];
        if i >= rows {
          assert from + (i - rows) < from + (j - rows);
        }
      }
    }
  }

  lemma ExtendedOld(s: Strings, input: Strings, from: nat, n: nat, r: Strings, i: nat)
    requires WellFormed(s) && WellFormed(input) && WellFormed(r) && from + n < |input.offsets| && Extended(s, input, from, n, r)
    requires i < |s.offsets| - 1
    ensures StringAt(r, i) == StringAt(s, i)
  {
    assert s.offsets[i + 1] <= |s.bytes|;
  }

  lemma ExtendedNew(s: Strings, input: Strings, from: nat, n: nat, r: Strings, k: nat)
    requires WellFormed(s) && WellFormed(input) && WellFormed(r) && from + n < |input.offsets| && Extended(s, input, from, n, r)
    requires k < n
    ensures StringAt(r, |s.offsets| - 1 + k) == StringAt(input, from + k)
  {
    var i, o := |s.offsets| - 1 + k, input.offsets;
    var a, b := o[from + k] - o[from], o[from + k + 1] - o[from];
    assert o[from] <= o[from + k] <= o[from + k + 1] <= o[from + n];
    assert r.offsets[i] == |s.bytes| + a && r.offsets[i + 1] == |s.bytes| + b;
    Window(s.bytes, input.bytes, o[from], o[from + n], a, b);
  }

  lemma Window(front: seq<bv8>, bytes: seq<bv8>, from: nat, to: nat, a: nat, b: nat)
    requires from <= to <= |bytes| && a <= b <= to - from
    ensures (front + bytes[from..to])[|front| + a..|front| + b] == bytes[from + a..from + b]
  {
    var l, r := (front + bytes[from..to])[|front| + a..|front| + b], bytes[from + a..from + b];
    assert forall i :: 0 <= i < b - a ==> l[i] == bytes[from..to][a + i] == r[i];
  }

  /** Appending strings: the old strings, then the input strings, in order. */
  lemma RebasedStrings(s: Strings, input: Strings, from: nat, n: nat, r: Strings)
    requires WellFormed(s) && WellFormed(input) && from + n < |input.offsets| && Extended(s, input, from, n, r)
    ensures WellFormed(r) && Decoded(r) == Decoded(s) + Decoded(input)[from..from + n]
  {
    hide StringAt;
    ExtendedRises(s, input, from, n, r) by { hide Extended; }
    var rows := |s.offsets| - 1;
    assert |r.offsets| == rows + n + 1;
    hide Extended, WellFormed;
    forall i | 0 <= i < rows + n
      ensures Decoded(r)[i] == (Decoded(s) + Decoded(input)[from..from + n])[i]
    {
      if i < rows {
        ExtendedOld(s, input, from, n, r, i);
      } else {
        ExtendedNew(s, input, from, n, r, i - rows);
      }
    }
  }

  /**
   What a string column holds after an append: the input strings always arrive, and the strings stored before survive
   exactly if there are none, or the input is not taken from a first string with an offset above 0. Otherwise the
   last of them grows by whatever lay behind it.
   */
  lemma StoredSurviveIff(s: Strings, t: Strings, from: nat, n: nat, gap: seq<bv8>, r: Strings)
    requires WellFormed(s) && WellFormed(t) && from + n < |t.offsets| && |gap| == (if from == 0 then t.offsets[0] else 0)
    requires s.offsets[|s.offsets| - 1] == |s.bytes| && r.offsets == Rebased(s.offsets, t.offsets, from, n)
    requires r.bytes == s.bytes + gap + t.bytes[t.offsets[from]..t.offsets[from + n]]
    ensures WellFormed(r) && |Decoded(r)| == |Decoded(s)| + n && from + n <= |Decoded(t)|
    ensures Decoded(r)[|Decoded(s)|..] == Decoded(t)[from..from + n]
    ensures Decoded(r)[..|Decoded(s)|] == WidenLast(Decoded(s), gap)
    ensures Decoded(r)[..|Decoded(s)|] == Decoded(s) <==> from != 0 || t.offsets[0] == 0 || |Decoded(s)| == 0
  {
    RebasedExtends(s, t, from, n, gap, r) by { hide Decoded, Rebased, Extended, Widen; }
    hide Rebased, Extended;
    WidenedStrings(s, gap);
    RebasedStrings(Widen(s, gap), t, from, n, r);
    NoGap(Decoded(s), gap);
    hide Widen, WellFormed;
    var d := Decoded(r);
    assert d[..|Decoded(s)|] == WidenLast(Decoded(s), gap);
  }

  /** One string `ab` is stored; appending the string `y` from a column whose index starts at 1 turns it into `ab?`. */
  lemma DamagedExample(gap: bv8)
    ensures var s, t := Strings([0, 2], [97, 98]), Strings([1, 2], [120, 121]);
            var r := Strings(Rebased(s.offsets, t.offsets, 0, 1), s.bytes + [gap] + t.bytes[1..2]);
            && WellFormed(s) && WellFormed(t) && Decoded(s) == [[97, 98]] && Decoded(t) == [[121]]
            && r.offsets == [0, 3, 4] && WellFormed(r) && Decoded(r) == [[97, 98, gap], [121]]
  {
    var s, t := Strings([0, 2], [97, 98]), Strings([1, 2], [120, 121]);
    var r := Strings([0, 3, 4], [97, 98, gap, 121]);
    assert Rebased(s.offsets, t.offsets, 0, 1) == r.offsets;
    assert s.bytes + [gap] + t.bytes[1..2] == r.bytes;
    assert StringAt(s, 0) == [97, 98] && StringAt(t, 0) == [121];
    assert StringAt(r, 0) == [97, 98, gap] && StringAt(r, 1) == [121];
    assert Decoded(s) == [StringAt(s, 0)] && Decoded(t) == [StringAt(t, 0)] && Decoded(r) == [StringAt(r, 0), StringAt(r, 1)];
  }

  /** The same on cells: a gap widens the last cell. */
  ghost function WidenCells(cells: seq<Cell>, gap: seq<bv8>): seq<Cell> {
    if cells == [] || gap == [] then cells else
      var last := cells[|cells| - 1];
      cells[..|cells| - 1] + [if last.Text? then Text(last.bytes + gap) else last]
  }

  function GapOf(input: Column, from: nat, spare: nat -> bv8): seq<bv8>
    requires input.Texts? ==> |input.strings.offsets| > 0
  {
    if input.Texts? then Gap(input.strings, from, spare) else []
  }

  lemma GapSize(input: Column, from: nat, spare: nat -> bv8)
    requires Readable(input)
    ensures from != 0 || Unsliced(input) ==> GapOf(input, from, spare) == []
  {
  }

  /** Append `n` rows of an input column to a column of a block, and tell how many bytes the rows take. */
  method AppendColumn(col: Column, input: Column, from: nat, n: nat, spare: nat -> bv8) returns (r: Column, size: nat)
    requires Ended(col) && Readable(input) && SameKind(col, input) && from + n <= |Cells(input)|
    ensures Ended(r) && SameKind(r, input) && Cells(r) == WidenCells(Cells(col), GapOf(input, from, spare)) + Cells(input)[from..from + n]
    ensures size == CellsBytes(input, from, from + n) && Stored(r) == Stored(col) + |GapOf(input, from, spare)| + size
    ensures Packed(col) && (from != 0 || Unsliced(input)) ==> Packed(r)
  {
    hide Decoded, WellFormed;
    match input
    case Ints(v) =>
      r, size := Ints(col.values + v[from..from + n]), INT_WIDTH * n;
    case Texts(t) =>
      var strings;
      TextCount(t);
      strings, size := AppendText(col.strings, t, from, n, spare);
      r := Texts(strings);
  }

  lemma TextCount(t: Strings)
    requires WellFormed(t)
    ensures |Cells(Texts(t))| == |t.offsets| - 1 == |Decoded(t)|
  {
  }

  /** Rebase the offsets and copy the bytes to the place the first new offset names. */
  method AppendText(s: Strings, t: Strings, from: nat, n: nat, spare: nat -> bv8) returns (r: Strings, size: nat)
    requires Ended(Texts(s)) && WellFormed(t) && from + n < |t.offsets|
    ensures Ended(Texts(r)) && Cells(Texts(r)) == WidenCells(Cells(Texts(s)), Gap(t, from, spare)) + Cells(Texts(t))[from..from + n]
    ensures size == t.offsets[from + n] - t.offsets[from] && |r.bytes| == |s.bytes| + |Gap(t, from, spare)| + size
    ensures s.offsets[0] == 0 && (from != 0 || t.offsets[0] == 0) ==> r.offsets[0] == 0
  {
    hide Cells, Decoded;
    var rows := |s.offsets| - 1;
    var offsets := RebaseOffsets(s.offsets, t.offsets, from, n);
    size := t.offsets[from + n] - t.offsets[from];
    var text := t.bytes[t.offsets[from]..t.offsets[from] + size];
    RebasedPositive(s, t, from, n);
    FirstNew(s, t, from, n);
    var gap := seq(offsets[rows] - |s.bytes|, i requires 0 <= i => spare(i));
    assert gap == Gap(t, from, spare);
    r := Strings(offsets, s.bytes + gap + text);
    TextAppended(s, t, from, n, gap, r);
  }

  lemma FirstNew(s: Strings, t: Strings, from: nat, n: nat)
    requires Ended(Texts(s)) && from + n < |t.offsets|
    ensures var r := Rebased(s.offsets, t.offsets, from, n);
            && r[|s.offsets| - 1] == |s.bytes| + (if from == 0 then t.offsets[0] else 0)
            && (s.offsets[0] == 0 && (from != 0 || t.offsets[0] == 0) ==> r[0] == 0)
  {
  }

  lemma TextAppended(s: Strings, t: Strings, from: nat, n: nat, gap: seq<bv8>, r: Strings)
    requires Ended(Texts(s)) && WellFormed(t) && from + n < |t.offsets| && |gap| == (if from == 0 then t.offsets[0] else 0)
    requires r.offsets == Rebased(s.offsets, t.offsets, from, n)
    requires r.bytes == s.bytes + gap + t.bytes[t.offsets[from]..t.offsets[from + n]]
    ensures from + n <= |Cells(Texts(t))|
    ensures Ended(Texts(r)) && Cells(Texts(r)) == WidenCells(Cells(Texts(s)), gap) + Cells(Texts(t))[from..from + n]
  {
    hide Decoded, Rebased, Extended, Cells, Widen;
    RebasedExtends(s, t, from, n, gap, r);
    WidenedStrings(s, gap);
    ExtendedRises(Widen(s, gap), t, from, n, r);
    hide WellFormed;
    RebasedStrings(Widen(s, gap), t, from, n, r);
    TextCount(t);
    TextCells(Widen(s, gap), t, from, n, r);
    WidenedCells(s, gap);
  }

  lemma WidenedCells(s: Strings, gap: seq<bv8>)
    requires WellFormed(s) && WellFormed(Widen(s, gap)) && Decoded(Widen(s, gap)) == WidenLast(Decoded(s), gap)
    ensures Cells(Texts(Widen(s, gap))) == WidenCells(Cells(Texts(s)), gap)
  {
    hide Decoded, WellFormed, Widen;
    NoGap(Decoded(s), gap);
  }

  lemma TextCells(s: Strings, t: Strings, from: nat, n: nat, r: Strings)
    requires WellFormed(s) && WellFormed(t) && WellFormed(r) && from + n <= |Cells(Texts(t))| == |Decoded(t)|
    requires Decoded(r) == Decoded(s) + Decoded(t)[from..from + n]
    ensures Cells(Texts(r)) == Cells(Texts(s)) + Cells(Texts(t))[from..from + n]
  {
    hide Decoded, WellFormed;
    CellsOfTexts(s);
    CellsOfTexts(t);
    CellsOfTexts(r);
    TextsAppend(Decoded(s), Decoded(t), from, n);
  }

  ghost function AsCells(strings: seq<seq<bv8>>): seq<Cell> {
    seq(|strings|, i requires 0 <= i < |strings| => Text(strings[i]))
  }

  lemma CellsOfTexts(s: Strings)
    requires WellFormed(s)
    ensures Cells(Texts(s)) == AsCells(Decoded(s))
  {
    hide Decoded, WellFormed;
  }

  lemma TextsAppend(a: seq<seq<bv8>>, b: seq<seq<bv8>>, from: nat, n: nat)
    requires from + n <= |b|
    ensures AsCells(a + b[from..from + n]) == AsCells(a) + AsCells(b)[from..from + n]
  {
  }

  lemma RebasedPositive(s: Strings, t: Strings, from: nat, n: nat)
    requires WellFormed(s) && WellFormed(t) && from + n < |t.offsets|
    ensures forall i :: 0 <= i < |Rebased(s.offsets, t.offsets, from, n)| ==> Rebased(s.offsets, t.offsets, from, n)[i] >= 0
  {
  }

  // ---------- Blocks ----------

  /** Input columns of the same kinds as a block's, with `rows` rows each. */
  ghost predicate Suits(columns: seq<Column>, input: seq<Column>, rows: nat) {
    && |input| == |columns|
    && forall c :: 0 <= c < |input| ==> Readable(input[c]) && |Cells(input[c])| == rows && SameKind(columns[c], input[c])
  }

  ghost predicate AllUnsliced(input: seq<Column>) {
    forall c :: 0 <= c < |input| ==> Unsliced(input[c])
  }

  /** The same, and none of the columns is a slice. */
  ghost predicate Fits(columns: seq<Column>, input: seq<Column>, rows: nat) {
    Suits(columns, input, rows) && AllUnsliced(input)
  }

  lemma SuitsTable(columns: seq<Column>, input: seq<Column>, rows: nat)
    requires Suits(columns, input, rows)
    ensures Table(input, rows)
  {
  }

  ghost predicate Sound(columns: seq<Column>, rows: nat) {
    forall c :: 0 <= c < |columns| ==> Packed(columns[c]) && |Cells(columns[c])| == rows
  }

  /**
   `after` is `before` with rows [from, from + n) of the input appended, in the columns below `k`. A gap widens the last
   cell stored before; `spare` is what the memory behind each column holds.
   */
  ghost predicate Appended(before: seq<Column>, after: seq<Column>, input: seq<Column>, rows: nat, total: nat, from: nat, n: nat, k: nat,
                           spare: nat -> nat -> bv8)
    requires Sound(before, rows) && Suits(before, input, total) && from + n <= total
  {
    && |after| == |before| && k <= |before|
    && (forall c :: 0 <= c < k ==> AppendedAt(before[c], after[c], input[c], from, n, spare(c)))
    && (forall c :: k <= c < |before| ==> after[c] == before[c])
  }

  ghost predicate AppendedAt(before: Column, after: Column, input: Column, from: nat, n: nat, spare: nat -> bv8)
    requires Packed(before) && Readable(input) && from + n <= |Cells(input)|
  {
    && Ended(after) && SameKind(before, after) && (from != 0 || Unsliced(input) ==> Packed(after))
    && Cells(after) == WidenCells(Cells(before), GapOf(input, from, spare)) + Cells(input)[from..from + n]
  }

  lemma {:induction false} StoredGrows(columns: seq<Column>, i: nat, r: Column)
    requires i < |columns|
    ensures StoredAll(columns[i := r]) == StoredAll(columns) - Stored(columns[i]) + Stored(r)
    decreases |columns|
  {
    var n := |columns| - 1;
    if i < n {
      StoredGrows(columns[..n], i, r);
      assert columns[i := r][..n] == columns[..n][i := r];
    } else {
      assert columns[i := r][..n] == columns[..n];
    }
  }

  lemma BytesPrefix(input: seq<Column>, rows: nat, a: nat, b: nat, k: nat)
    requires Table(input, rows) && a <= b <= rows && k < |input|
    ensures Table(input[..k], rows) && Table(input[..k + 1], rows)
    ensures Bytes(input[..k + 1], rows, a, b) == Bytes(input[..k], rows, a, b) + CellsBytes(input[k], a, b)
  {
    assert input[..k + 1][..k] == input[..k];
  }

  class Block {
    const capacity: nat
    var columns: seq<Column>
    var numRows: nat
    var numBytes: nat

    /** The columns have one cell per row, and the byte count is what they take. */
    ghost predicate Valid()
      reads this
    {
      Sound(columns, numRows) && numBytes == StoredAll(columns)
    }

    constructor (capacity: nat, schema: seq<Column>)
      ensures Valid() && this.capacity == capacity && numRows == 0 && numBytes == 0 && |columns| == |schema|
      ensures forall c :: 0 <= c < |schema| ==> SameKind(columns[c], schema[c])
    {
      this.capacity := capacity;
      columns := seq(|schema|, c requires 0 <= c < |schema| => EmptyColumn(schema[c]));
      numRows, numBytes := 0, 0;
      new;
      EmptyColumns(schema, columns);
    }

    ghost function CellsAt(c: nat): seq<Cell>
      requires Valid() && c < |columns|
      reads this
    {
      Cells(columns[c])
    }

    function BytesLeft(): int
      reads this
    {
      capacity - numBytes
    }

    /**
     Append rows [from, from + n) of the input columns. The block stays sound if the rows are not the first ones of a
     column whose strings do not start at byte 0.
     */
    method InsertRecords(input: seq<Column>, ghost total: nat, from: nat, n: nat, spare: nat -> nat -> bv8)
      requires Valid() && Suits(columns, input, total) && from + n <= total
      modifies this
      ensures numRows == old(numRows) + n
      ensures n == 0 ==> columns == old(columns)
      ensures n > 0 ==> Appended(old(columns), columns, input, old(numRows), total, from, n, |columns|, spare)
      ensures Table(input, total) && numBytes == old(numBytes) + Bytes(input, total, from, from + n)
      ensures n == 0 || from != 0 || AllUnsliced(input) ==> Valid()
    {
      hide Cells, Packed, Ended, Readable, Unsliced, CellsBytes, Stored, Appended, StoredAll, Bytes, GapOf;
      SuitsTable(columns, input, total);
      if n == 0 {
        BytesAdd(input, total, from, from, from);
        return;
      }
      ghost var before, rows := columns, numRows;
      AppendedStarts(before, input, rows, total, from, n, spare);
      for i := 0 to |input|
        invariant Appended(before, columns, input, rows, total, from, n, i, spare) && numRows == rows
        invariant Table(input[..i], total) && numBytes == old(numBytes) + Bytes(input[..i], total, from, from + n)
        invariant from != 0 || AllUnsliced(input) ==> numBytes == StoredAll(columns)
      {
        ColumnReady(before, columns, input, rows, total, from, n, i, spare);
        var r, size := AppendColumn(columns[i], input[i], from, n, spare(i));
        GapSize(input[i], from, spare(i));
        BytesPrefix(input, total, from, from + n, i);
        StoredGrows(columns, i, r);
        AppendedStep(before, columns, input, rows, total, from, n, i, r, spare);
        columns := columns[i := r];
        numBytes := numBytes + size;
      }
      assert input[..|input|] == input;
      AppendedSound(before, columns, input, rows, total, from, n, spare);
      numRows := numRows + n;
    }
  }

  function EmptyColumn(c: Column): Column {
    if c.Ints? then Ints([]) else Texts(Strings([0], []))
  }

  lemma {:induction false} EmptyColumns(schema: seq<Column>, columns: seq<Column>)
    requires |columns| == |schema| && forall c :: 0 <= c < |schema| ==> columns[c] == EmptyColumn(schema[c])
    ensures Sound(columns, 0) && StoredAll(columns) == 0
  {
    if schema != [] {
      var n := |schema| - 1;
      EmptyColumns(schema[..n], columns[..n]);
      NoStrings(Strings([0], []));
      forall c | 0 <= c < |columns|
        ensures Packed(columns[c]) && |Cells(columns[c])| == 0
      {
        assert c < n ==> columns[..n][c] == columns[c];
      }
    }
  }

  lemma AppendedStarts(columns: seq<Column>, input: seq<Column>, rows: nat, total: nat, from: nat, n: nat, spare: nat -> nat -> bv8)
    requires Sound(columns, rows) && Suits(columns, input, total) && from + n <= total
    ensures Appended(columns, columns, input, rows, total, from, n, 0, spare)
    ensures Table(input[..0], total) && Bytes(input[..0], total, from, from + n) == 0
  {
  }

  lemma ColumnReady(before: seq<Column>, after: seq<Column>, input: seq<Column>, rows: nat, total: nat, from: nat, n: nat, i: nat,
                    spare: nat -> nat -> bv8)
    requires Sound(before, rows) && Suits(before, input, total) && from + n <= total && i < |before|
    requires Appended(before, after, input, rows, total, from, n, i, spare)
    ensures |after| == |before| && after[i] == before[i] && Packed(after[i]) && Ended(after[i]) && Readable(input[i]) && SameKind(after[i], input[i])
    ensures from + n <= |Cells(input[i])|
  {
    hide Cells, WellFormed, AppendedAt;
  }

  lemma AppendedStep(before: seq<Column>, after: seq<Column>, input: seq<Column>, rows: nat, total: nat, from: nat, n: nat, i: nat, r: Column,
                     spare: nat -> nat -> bv8)
    requires Sound(before, rows) && Suits(before, input, total) && from + n <= total && i < |before|
    requires Appended(before, after, input, rows, total, from, n, i, spare)
    requires AppendedAt(before[i], r, input[i], from, n, spare(i))
    ensures Appended(before, after[i := r], input, rows, total, from, n, i + 1, spare)
  {
    hide Cells, Packed, Readable, AppendedAt;
  }

  /** The columns stay sound if there is no gap, and then the cells are just appended. */
  lemma AppendedSound(before: seq<Column>, after: seq<Column>, input: seq<Column>, rows: nat, total: nat, from: nat, n: nat,
                      spare: nat -> nat -> bv8)
    requires Sound(before, rows) && Suits(before, input, total) && from + n <= total
    requires Appended(before, after, input, rows, total, from, n, |before|, spare)
    ensures |after| == |before| && forall c :: 0 <= c < |before| ==> SameKind(before[c], after[c])
    ensures from != 0 || AllUnsliced(input) ==> Sound(after, rows + n)
  {
    hide Cells, WellFormed, GapOf;
    forall c | 0 <= c < |before| && (from != 0 || AllUnsliced(input))
      ensures Packed(after[c]) && |Cells(after[c])| == rows + n
    {
      assert AppendedAt(before[c], after[c], input[c], from, n, spare(c));
      GapSize(input[c], from, spare(c));
    }
  }

  // ---------- Tables ----------

  ghost predicate Matches(schema: seq<Column>, columns: seq<Column>) {
    |columns| == |schema| && forall c :: 0 <= c < |columns| ==> SameKind(schema[c], columns[c])
  }

  /** The cells of column `c` in the given blocks, in order. */
  ghost function Read(blocks: seq<Block>, c: nat): seq<Cell>
    requires forall b :: 0 <= b < |blocks| ==> blocks[b].Valid() && c < |blocks[b].columns|
    reads blocks
  {
    if blocks == [] then [] else
      var n := |blocks| - 1;
      Read(blocks[..n], c) + blocks[n].CellsAt(c)
  }

  ghost function RecordBytes(input: seq<Column>, total: nat, row: nat): nat
    requires Table(input, total) && row < total
  {
    Bytes(input, total, row, row + 1)
  }

  /** The bytes one record takes. */
  method RecordSize(input: seq<Column>, ghost total: nat, row: nat) returns (size: nat)
    requires Table(input, total) && row < total
    ensures size == RecordBytes(input, total, row)
  {
    hide Cells, CellsBytes;
    size := 0;
    assert input[..0] == [];
    for i := 0 to |input|
      invariant Table(input[..i], total) && size == Bytes(input[..i], total, row, row + 1)
    {
      BytesPrefix(input, total, row, row + 1, i);
      var width := CellWidth(input[i], row);
      size := size + width;
    }
    assert input[..|input|] == input;
  }

  method CellWidth(c: Column, row: nat) returns (width: nat)
    requires Readable(c) && row < |Cells(c)|
    ensures width == CellsBytes(c, row, row + 1)
  {
    match c
    case Ints(_) => width := INT_WIDTH;
    case Texts(s) => width := s.offsets[row + 1] - s.offsets[row];
  }

  class DBTable {
    const capacity: nat
    const schema: seq<Column>
    const fixedWidth: nat
    var blocks: seq<Block>
    var pool: set<nat>
    var numRows: nat

    /** Blocks are sound, match the schema and stay within the capacity. */
    ghost predicate Valid()
      reads this, blocks
    {
      && (forall b :: 0 <= b < |blocks| ==> BlockOk(blocks[b]))
      && (forall b, d :: 0 <= b < d < |blocks| ==> blocks[b] != blocks[d])
      && (forall b :: b in pool ==> b < |blocks|)
    }

    ghost predicate BlockOk(b: Block)
      reads b
    {
      b.Valid() && b.capacity == capacity && b.numBytes <= capacity && Matches(schema, b.columns)
    }

    constructor (capacity: nat, schema: seq<Column>, fixedWidth: nat)
      ensures Valid() && blocks == [] && this.capacity == capacity && this.schema == schema && this.fixedWidth == fixedWidth
    {
      this.capacity, this.schema, this.fixedWidth := capacity, schema, fixedWidth;
      blocks, pool, numRows := [], {}, 0;
    }

    method CreateBlock() returns (b: Block)
      requires Valid()
      modifies this`blocks
      ensures Valid() && fresh(b) && blocks == old(blocks) + [b] && b.numRows == 0 && b.numBytes == 0
    {
      b := new Block(capacity, schema);
      blocks := blocks + [b];
    }

    /** A block from the insert pool, or a new one, by number. */
    method GetBlockForInsert() returns (id: nat)
      requires Valid()
      modifies this`blocks, this`pool
      ensures Valid() && id < |blocks| && old(blocks) <= blocks
      ensures id < |old(blocks)| ==> blocks == old(blocks) && id in old(pool) && pool == old(pool) - {id}
      ensures id >= |old(blocks)| ==> old(pool) == pool == {} && id == |old(blocks)| && blocks == old(blocks) + [blocks[id]]
      ensures id >= |old(blocks)| ==> fresh(blocks[id]) && blocks[id].numRows == 0
    {
      if pool == {} {
        id := |blocks|;
        var b := CreateBlock();
      } else {
        id :| id in pool;
        pool := pool - {id};
      }
    }

    /** Put rows [from, to) of the input into the last block of `order`. */
    method Flush(block: Block, input: seq<Column>, ghost total: nat, from: nat, to: nat, ghost order: seq<Block>, ghost start: seq<seq<Cell>>,
                 ghost cuts: seq<nat>)
      requires Valid() && block in blocks && Fits(schema, input, total) && from <= to <= total
      requires order != [] && block == order[|order| - 1] && block !in order[..|order| - 1] && AllOk(order)
      requires Table(input, total) && block.numBytes + Bytes(input, total, from, to) <= capacity && Tight(order, cuts, input, total)
      requires |start| == |schema| && Cut(order, cuts, start, input)
      requires forall c :: 0 <= c < |schema| ==> Read(order, c) == start[c] + Cells(input[c])[..from]
      modifies block
      ensures Valid() && AllOk(order) && block.numBytes == old(block.numBytes) + Bytes(input, total, from, to) && Tight(order, cuts, input, total)
      ensures Cut(order, cuts, start, input)
      ensures forall c :: 0 <= c < |schema| ==> Read(order, c) == start[c] + Cells(input[c])[..to]
    {
      hide Cells, Packed, Unsliced, Sound, Appended, Bytes, StoredAll, CellsBytes, HoldsUpTo;
      MatchingFits(schema, block.columns, input, total);
      ghost var before := block.columns;
      ghost var front := order[..|order| - 1];
      forall c | 0 <= c < |schema|
        ensures Read(order, c) == Read(front, c) + block.CellsAt(c)
      {
        ReadSplit(order, c);
      }
      var spare := (c: nat) => (i: nat) => 0 as bv8;
      block.InsertRecords(input, total, from, to - from, spare);
      forall k, c | 0 < k < |order| && 0 <= c < |start|
        ensures HoldsUpTo(order[..k], c, start[c], input[c], cuts[k])
      {
        assert forall b :: b in order[..k] ==> b in order[..|order| - 1];
        assert old(HoldsUpTo(order[..k], c, start[c], input[c], cuts[k]));
      }
      KindsStay(before, block.columns, schema, input, total, from, to - from, old(block.numRows), spare);
      forall c | 0 <= c < |schema|
        ensures Read(order, c) == start[c] + Cells(input[c])[..to]
      {
        ColumnGrew(before, block.columns, input, old(block.numRows), total, from, to - from, c, spare);
        ReadSplit(order, c);
        assert Read(front, c) == old(Read(front, c));
        assert block.CellsAt(c) == old(block.CellsAt(c)) + Cells(input[c])[from..to];
        Extend(start[c], Cells(input[c]), from, to, old(Read(front, c)), old(block.CellsAt(c)));
      }
    }

    /** Close the current block with the rows that fit and continue in a new one. */
    method Spill(block: Block, input: seq<Column>, ghost total: nat, from: nat, to: nat, ghost order: seq<Block>, ghost start: seq<seq<Cell>>,
                 ghost cuts: seq<nat>)
      returns (next: Block, ghost order': seq<Block>)
      requires Valid() && block in blocks && Fits(schema, input, total) && from <= to <= total
      requires order != [] && block == order[|order| - 1] && block !in order[..|order| - 1] && AllOk(order)
      requires Table(input, total) && block.numBytes + Bytes(input, total, from, to) <= capacity && Tight(order, cuts, input, total)
      requires |start| == |schema| && Cut(order, cuts, start, input)
      requires forall c :: 0 <= c < |schema| ==> Read(order, c) == start[c] + Cells(input[c])[..from]
      requires to < total && block.numBytes + Bytes(input, total, from, to) + RecordBytes(input, total, to) > capacity
      modifies block, this`blocks
      ensures Valid() && fresh(next) && blocks == old(blocks) + [next] && order' == order + [next] && AllOk(order') && next.numBytes == 0
      ensures Tight(order', cuts + [to], input, total) && Cut(order', cuts + [to], start, input)
      ensures forall c :: 0 <= c < |schema| ==> Read(order', c) == start[c] + Cells(input[c])[..to]
    {
      hide Cells, Packed, Unsliced, Sound, Bytes, StoredAll, CellsBytes, Read, SameKind, WellFormed;
      Flush(block, input, total, from, to, order, start, cuts);
      next := CreateBlock();
      order' := order + [next];
      HoldAll(order, start, input, total, to);
      NextCut(order, cuts, start, input, next, to);
      assert blocks[|blocks| - 1] == next;
      EmptyStart(next);
      forall c | 0 <= c < |schema|
        ensures Read(order', c) == start[c] + Cells(input[c])[..to]
      {
        assert order'[..|order|] == order;
        ReadSplit(order', c);
      }
    }

    lemma HoldAll(order: seq<Block>, start: seq<seq<Cell>>, input: seq<Column>, total: nat, to: nat)
      requires AllOk(order) && Fits(schema, input, total) && to <= total && |start| == |schema|
      requires forall c :: 0 <= c < |schema| ==> Read(order, c) == start[c] + Cells(input[c])[..to]
      ensures forall c :: 0 <= c < |start| ==> HoldsUpTo(order, c, start[c], input[c], to)
    {
      hide Cells, Read, Unsliced;
    }

    /** Every block of `order` but the last was left because the record at the next of `cuts` did not fit any more. */
    ghost predicate Tight(order: seq<Block>, cuts: seq<nat>, input: seq<Column>, total: nat)
      requires Table(input, total)
      reads order
    {
      && |cuts| == |order|
      && forall k :: 0 < k < |order| ==> cuts[k] < total && order[k - 1].numBytes + RecordBytes(input, total, cuts[k]) > capacity
    }

    /** The blocks hold, of column `c`, what was there at the start and then the input before record `cut`. */
    ghost predicate HoldsUpTo(front: seq<Block>, c: nat, start: seq<Cell>, input: Column, cut: nat)
      reads front
    {
      && (forall b :: 0 <= b < |front| ==> front[b].Valid() && c < |front[b].columns|)
      && Readable(input) && cut <= |Cells(input)|
      && Read(front, c) == start + Cells(input)[..cut]
    }

    /** Each of `cuts` is the first record of its block: the blocks before it hold exactly the records before it. */
    ghost predicate Cut(order: seq<Block>, cuts: seq<nat>, start: seq<seq<Cell>>, input: seq<Column>)
      requires |input| == |start|
      reads order
    {
      |cuts| == |order| && forall k, c :: 0 < k < |order| && 0 <= c < |start| ==> HoldsUpTo(order[..k], c, start[c], input[c], cuts[k])
    }

    lemma OneCut(block: Block, start: seq<seq<Cell>>, input: seq<Column>)
      requires |input| == |start|
      ensures Cut([block], [0], start, input)
    {
    }

    lemma NextCut(order: seq<Block>, cuts: seq<nat>, start: seq<seq<Cell>>, input: seq<Column>, next: Block, to: nat)
      requires |input| == |start| && Cut(order, cuts, start, input)
      requires forall c :: 0 <= c < |start| ==> HoldsUpTo(order, c, start[c], input[c], to)
      ensures Cut(order + [next], cuts + [to], start, input)
    {
      hide HoldsUpTo;
      var order', cuts' := order + [next], cuts + [to];
      forall k, c | 0 < k < |order'| && 0 <= c < |start|
        ensures HoldsUpTo(order'[..k], c, start[c], input[c], cuts'[k])
      {
        assert order'[..k] == if k < |order| then order[..k] else order;
      }
    }

    lemma OneBlock(block: Block, input: seq<Column>, total: nat)
      requires Table(input, total)
      ensures Tight([block], [0], input, total)
    {
    }

    /** Distribute the input over block `id` and new blocks. */
    method Fill(id: nat, input: seq<Column>, total: nat) returns (last: nat, ghost order: seq<Block>, ghost cuts: seq<nat>)
      requires Valid() && id < |blocks| && Fits(schema, input, total) && Table(input, total)
      requires forall row :: 0 <= row < total ==> RecordBytes(input, total, row) <= capacity
      modifies this`blocks, blocks[id]
      ensures Valid() && AllOk(order) && order != [] && order[0] == old(blocks)[id] && blocks == old(blocks) + order[1..]
      ensures last == (if |order| == 1 then id else |blocks| - 1) && forall k :: 0 < k < |order| ==> fresh(order[k])
      ensures Tight(order, cuts, input, total) && Cut(order, cuts, old(Starts(blocks[id], |schema|)), input)
      ensures forall c :: 0 <= c < |schema| ==> Read(order, c) == old(Starting(blocks[id], c)) + Cells(input[c])
    {
      hide Cells, Packed, Unsliced, Sound, Bytes, StoredAll, CellsBytes, Read, SameKind, RecordBytes, WellFormed, Tight, Cut;
      var block := blocks[id];
      last := id;
      ghost var first := block;
      order, cuts := [block], [0];
      FirstRead(block);
      assert Tight(order, cuts, input, total) by { OneBlock(block, input, total); }
      ghost var start := Starts(block, |schema|);
      OneCut(block, start, input);
      var offset: nat, dataSize: nat := 0, 0;
      BytesAdd(input, total, 0, 0, 0);
      for row := 0 to total
        invariant order != [] && blocks == old(blocks) + order[1..]
        invariant last < |blocks| && blocks[last] == block && Valid() && AllOk(order)
        invariant order[0] == first && block == order[|order| - 1] && block !in order[..|order| - 1]
        invariant last == (if |order| == 1 then id else |blocks| - 1) && forall k :: 0 < k < |order| ==> fresh(order[k])
        invariant offset <= row && dataSize == Bytes(input, total, offset, row) && block.numBytes + dataSize <= capacity
        invariant Tight(order, cuts, input, total) && Cut(order, cuts, start, input)
        invariant forall c :: 0 <= c < |schema| ==> Read(order, c) == start[c] + Cells(input[c])[..offset]
      {
        var size := RecordSize(input, total, row);
        OneMore(input, total, offset, row);
        if dataSize + size > block.BytesLeft() {
          OneMore(input, total, row, row);
          block, order := Spill(block, input, total, offset, row, order, start, cuts);
          cuts := cuts + [row];
          last, offset, dataSize := |blocks| - 1, row, 0;
        }
        dataSize := dataSize + size;
      }
      Flush(block, input, total, offset, total, order, start, cuts);
      WholeInput(schema, input, total);
    }

    /**
     Insert all input records. They are appended to one block of the insert pool, or to a new one, and continue in
     new blocks; `order` lists these blocks. Reading them gives the old cells of the first block and then the
     input, column by column. The table gains exactly the new ones, each begun because a record did not fit.
     */
    method InsertRecords(input: seq<Column>, total: nat) returns (ghost id: nat, ghost order: seq<Block>, ghost cuts: seq<nat>)
      requires Valid() && Fits(schema, input, total) && Table(input, total)
      requires forall row :: 0 <= row < total ==> RecordBytes(input, total, row) <= capacity
      modifies this, blocks
      ensures Valid() && AllOk(order) && numRows == old(numRows) + total && id < |blocks| && order != [] && order[0] == blocks[id]
      ensures if id < |old(blocks)| then id in old(pool) else id == |old(blocks)| && old(pool) == {}
      ensures blocks == old(blocks) + (if id < |old(blocks)| then order[1..] else order)
      ensures forall k :: 0 <= k < |order| && (k > 0 || id == |old(blocks)|) ==> fresh(order[k])
      ensures forall b :: b in old(blocks) && b != order[0] ==> unchanged(b)
      ensures Tight(order, cuts, input, total)
      ensures Cut(order, cuts, if id < |old(blocks)| then old(Starts(blocks[id], |schema|)) else seq(|schema|, _ => []), input)
      ensures forall c :: 0 <= c < |schema| ==>
                Read(order, c) == (if id < |old(blocks)| then old(Starting(blocks[id], c)) else []) + Cells(input[c])
      ensures var last := if |order| == 1 then id else |blocks| - 1;
              pool == old(pool) - {id} + (if blocks[last].BytesLeft() > fixedWidth then {last} else {})
    {
      hide Cells, Packed, Unsliced, Sound, Bytes, StoredAll, CellsBytes, Read, SameKind, RecordBytes, WellFormed, Tight, Cut, Matches, Fits;
      var at := GetBlockForInsert();
      id := at;
      if id == |old(blocks)| {
        NewStart(blocks[id]);
        assert Starts(blocks[id], |schema|) == seq(|schema|, _ => []);
      } else {
        assert forall c :: Starting(blocks[id], c) == old(Starting(blocks[id], c));
      }
      order, cuts := InsertInto(at, input, total);
    }

    /** Insert all records into block `at` and new blocks, and offer the last one for further records. */
    method InsertInto(at: nat, input: seq<Column>, total: nat) returns (ghost order: seq<Block>, ghost cuts: seq<nat>)
      requires Valid() && at < |blocks| && Fits(schema, input, total) && Table(input, total)
      requires forall row :: 0 <= row < total ==> RecordBytes(input, total, row) <= capacity
      modifies this`blocks, this`pool, this`numRows, blocks[at]
      ensures Valid() && AllOk(order) && order != [] && order[0] == old(blocks)[at] && blocks == old(blocks) + order[1..]
      ensures numRows == old(numRows) + total && forall k :: 0 < k < |order| ==> fresh(order[k])
      ensures Tight(order, cuts, input, total) && Cut(order, cuts, old(Starts(blocks[at], |schema|)), input)
      ensures forall c :: 0 <= c < |schema| ==> Read(order, c) == old(Starting(blocks[at], c)) + Cells(input[c])
      ensures var last := if |order| == 1 then at else |blocks| - 1;
              pool == old(pool) + (if blocks[last].BytesLeft() > fixedWidth then {last} else {})
    {
      hide Cells, Packed, Unsliced, Sound, Bytes, StoredAll, CellsBytes, Read, SameKind, RecordBytes, WellFormed, Tight, Cut, Matches, Fits;
      var last;
      last, order, cuts := Fill(at, input, total);
      if blocks[last].BytesLeft() > fixedWidth {
        pool := pool + {last};
      }
      numRows := numRows + total;
    }

    lemma NewStart(b: Block)
      requires b.Valid() && b.numRows == 0
      ensures forall c :: Starting(b, c) == []
    {
      EmptyStart(b);
    }

    ghost function Starting(b: Block, c: nat): seq<Cell>
      reads b
    {
      if b.Valid() && c < |b.columns| then b.CellsAt(c) else []
    }

    ghost function Starts(b: Block, n: nat): (s: seq<seq<Cell>>)
      reads b
      ensures |s| == n && forall c :: 0 <= c < n ==> s[c] == Starting(b, c)
    {
      seq(n, c requires 0 <= c < n reads b => Starting(b, c))
    }

    /** The blocks match the schema and stay within the capacity. */
    ghost predicate AllOk(order: seq<Block>)
      reads order
    {
      forall b :: 0 <= b < |order| ==> BlockOk(order[b])
    }
  }

  lemma WholeInput(schema: seq<Column>, input: seq<Column>, total: nat)
    requires Fits(schema, input, total)
    ensures forall c :: 0 <= c < |schema| ==> Cells(input[c])[..total] == Cells(input[c])
  {
    hide Cells, WellFormed;
  }

  lemma EmptyStart(b: Block)
    requires b.Valid() && b.numRows == 0
    ensures forall c :: 0 <= c < |b.columns| ==> b.CellsAt(c) == []
  {
    hide Cells;
  }

  lemma OneMore(input: seq<Column>, total: nat, from: nat, row: nat)
    requires Table(input, total) && from <= row < total
    ensures Bytes(input, total, from, row + 1) == Bytes(input, total, from, row) + RecordBytes(input, total, row)
    ensures Bytes(input, total, from, from) == 0
  {
    BytesAdd(input, total, from, row, row + 1);
    BytesAdd(input, total, from, from, from);
  }

  lemma FirstRead(b: Block)
    requires b.Valid()
    ensures forall c :: 0 <= c < |b.columns| ==> Read([b], c) == b.CellsAt(c)
  {
    forall c | 0 <= c < |b.columns|
      ensures Read([b], c) == b.CellsAt(c)
    {
      ReadSplit([b], c);
      assert [b][..0] == [];
      assert Read([b][..0], c) == [];
    }
  }

  lemma ReadSplit(blocks: seq<Block>, c: nat)
    requires blocks != [] && forall b :: 0 <= b < |blocks| ==> blocks[b].Valid() && c < |blocks[b].columns|
    ensures Read(blocks, c) == Read(blocks[..|blocks| - 1], c) + blocks[|blocks| - 1].CellsAt(c)
  {
  }

  lemma Extend(start: seq<Cell>, cells: seq<Cell>, from: nat, to: nat, front: seq<Cell>, last: seq<Cell>)
    requires from <= to <= |cells| && front + last == start + cells[..from]
    ensures front + (last + cells[from..to]) == start + cells[..to]
  {
    assert cells[..to] == cells[..from] + cells[from..to];
    assert front + (last + cells[from..to]) == (front + last) + cells[from..to];
  }

  lemma MatchingFits(schema: seq<Column>, columns: seq<Column>, input: seq<Column>, total: nat)
    requires Matches(schema, columns) && Fits(schema, input, total)
    ensures Fits(columns, input, total)
  {
    hide Cells, Unsliced;
  }

  lemma KindsStay(before: seq<Column>, after: seq<Column>, schema: seq<Column>, input: seq<Column>, total: nat, from: nat, n: nat, rows: nat,
                  spare: nat -> nat -> bv8)
    requires Sound(before, rows) && Fits(before, input, total) && from + n <= total && Matches(schema, before)
    requires if n == 0 then after == before else Appended(before, after, input, rows, total, from, n, |after|, spare)
    ensures Matches(schema, after)
  {
    hide Cells, Packed, Ended, Unsliced, GapOf;
    if n > 0 {
      AppendedSound(before, after, input, rows, total, from, n, spare);
    }
  }

  lemma ColumnGrew(before: seq<Column>, after: seq<Column>, input: seq<Column>, rows: nat, total: nat, from: nat, n: nat, c: nat,
                   spare: nat -> nat -> bv8)
    requires Sound(before, rows) && Fits(before, input, total) && from + n <= total && c < |before|
    requires if n == 0 then after == before else Appended(before, after, input, rows, total, from, n, |after|, spare)
    ensures |after| == |before| && Packed(before[c]) && Packed(after[c]) && |Cells(input[c])| == total
    ensures Readable(input[c]) && Cells(after[c]) == Cells(before[c]) + Cells(input[c])[from..from + n]
  {
    hide Cells, WellFormed, GapOf;
    GapSize(input[c], from, spare(c));
    if n > 0 {
      assert AppendedAt(before[c], after[c], input[c], from, n, spare(c));
    }
  }
}
