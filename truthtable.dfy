/** The bit helpers shared by the three microcode tools. A column of a
    truth table is a list of cells read most significant bit first: "1"
    and "0" are fixed bits, anything else is a don't-care.
    `getValueFromList` packs a column into a number (a don't-care counts as
    0) and `getPossiableValueCombinations` expands the don't-cares into
    every concrete value. */
module TruthTable {
  import opened Common

  const HIGH := "1"
  const LOW := "0"

  predicate Fixed(cell: string)
  {
    cell == HIGH || cell == LOW
  }

  /** `int(item)` of a fixed cell; a don't-care reads as 0. */
  function CellBit(cell: string): nat
  {
    if cell == HIGH then 1 else 0
  }

  // ---------------------------------------------------------------------
  // Bits of a natural number
  // ---------------------------------------------------------------------

  /** Division is the unique quotient with a remainder in range. */
  lemma DivUnique(x: int, d: int, q: int, r: int)
    requires d > 0 && x == d * q + r && 0 <= r < d
    ensures x / d == q && x % d == r
  {
    var q', r' := x / d, x % d;
    assert x == d * q' + r';
    if q' > q {
      assert d * q' >= d * (q + 1) by { MulMono(d, q + 1, q'); }
    } else if q' < q {
      assert d * q >= d * (q' + 1) by { MulMono(d, q' + 1, q); }
    }
  }

  lemma MulMono(d: int, a: int, b: int)
    requires d > 0 && a <= b
    ensures d * a <= d * b
  {
    assert d * b - d * a == d * (b - a);
  }

  /** Bit k + 1 of v is bit k of v shifted right once (`v >> 1`). */
  lemma BitHalf(v: int, k: nat)
    ensures Bit(v, k + 1) == Bit(v / 2, k)
  {
    var p := Pow2(k);
    assert Pow2(k + 1) == 2 * p;
    var q, r := v / 2, v % 2;
    var a, c := q / p, q % p;
    assert q == p * a + c;
    assert v == (2 * p) * a + (2 * c + r);
    DivUnique(v, 2 * p, a, 2 * c + r);
  }

  /** `v` with bit `i` replaced by `b`: Python's `v & ~(1 << i)` for
      `b == 0` and `v | (1 << i)` for `b == 1`, on a non-negative `v`. */
  function SetBit(v: nat, i: nat, b: nat): (r: nat)
    requires b < 2
    decreases i
  {
    if i == 0 then 2 * (v / 2) + b else 2 * SetBit(v / 2, i - 1, b) + v % 2
  }

  /** Setting bit `i` changes bit `i` and no other. */
  lemma {:induction false} SetBitReads(v: nat, i: nat, b: nat, j: nat)
    requires b < 2
    ensures Bit(SetBit(v, i, b), j) == if j == i then b else Bit(v, j)
    decreases i
  {
    var r := SetBit(v, i, b);
    if j == 0 {
      assert Bit(r, 0) == r % 2;
      assert Bit(v, 0) == v % 2;
    } else {
      BitHalf(r, j - 1);
      BitHalf(v, j - 1);
      if i > 0 {
        assert r / 2 == SetBit(v / 2, i - 1, b);
        SetBitReads(v / 2, i - 1, b, j - 1);
      } else {
        assert r / 2 == v / 2;
      }
    }
  }

  /** Setting a bit below `n` keeps a value below 2^n. */
  lemma {:induction false} SetBitBound(v: nat, i: nat, b: nat, n: nat)
    requires b < 2 && v < Pow2(n) && i < n
    ensures SetBit(v, i, b) < Pow2(n)
    decreases i
  {
    HalfBound(v, n);
    if i > 0 {
      SetBitBound(v / 2, i - 1, b, n - 1);
      DoubleBound(SetBit(v / 2, i - 1, b), v % 2, Pow2(n - 1));
    } else {
      DoubleBound(v / 2, b, Pow2(n - 1));
    }
  }

  /** Shifting a value below 2^n right once leaves it below 2^(n-1). */
  lemma HalfBound(v: nat, n: nat)
    requires n >= 1 && v < Pow2(n)
    ensures Pow2(n) == 2 * Pow2(n - 1) && v / 2 < Pow2(n - 1)
  {
  }

  /** Shifting a value below `m` left and adding a bit keeps it below `2 * m`. */
  lemma DoubleBound(x: nat, c: nat, m: nat)
    requires x < m && c < 2
    ensures 2 * x + c < 2 * m
  {
  }

  /** Setting a bit to the value it has changes nothing. */
  lemma {:induction false} SetBitSame(v: nat, i: nat)
    ensures Bit(v, i) < 2 && SetBit(v, i, Bit(v, i)) == v
    decreases i
  {
    if i == 0 {
      assert Bit(v, 0) == v % 2;
    } else {
      BitHalf(v, i - 1);
      SetBitSame(v / 2, i - 1);
    }
  }

  /** Setting the same bit twice keeps the second value. */
  lemma {:induction false} SetBitTwice(v: nat, i: nat, a: nat, b: nat)
    requires a < 2 && b < 2
    ensures SetBit(SetBit(v, i, a), i, b) == SetBit(v, i, b)
    decreases i
  {
    if i == 0 {
      Halve(v / 2, a);
    } else {
      Halve(SetBit(v / 2, i - 1, a), v % 2);
      SetBitTwice(v / 2, i - 1, a, b);
    }
  }

  /** Shifting `2 * x + c` right once gives back `x`, and its low bit is
      `c`. */
  lemma Halve(x: nat, c: nat)
    requires c < 2
    ensures (2 * x + c) / 2 == x && (2 * x + c) % 2 == c
  {
  }

  /** Two values below 2^n with the same n low bits are equal. */
  lemma {:induction false} BitsDetermine(u: nat, v: nat, n: nat)
    requires u < Pow2(n) && v < Pow2(n)
    requires forall j :: 0 <= j < n ==> Bit(u, j) == Bit(v, j)
    ensures u == v
    decreases n
  {
    if n > 0 {
      assert Bit(u, 0) == u % 2 && Bit(v, 0) == v % 2;
      forall j | 0 <= j < n - 1
        ensures Bit(u / 2, j) == Bit(v / 2, j)
      {
        BitHalf(u, j);
        BitHalf(v, j);
      }
      BitsDetermine(u / 2, v / 2, n - 1);
    }
  }

  // ---------------------------------------------------------------------
  // Reading a column
  // ---------------------------------------------------------------------

  /** The loop that builds `valMatrix`: the cells in reverse, so that
      position `i` holds the cell of bit `i`. */
  method Reversed(cells: seq<string>) returns (valMatrix: seq<string>)
    ensures |valMatrix| == |cells|
    ensures forall i :: 0 <= i < |cells| ==> valMatrix[i] == cells[|cells| - 1 - i]
  {
    valMatrix := [];
    var index := |cells|;
    while index > 0
      invariant 0 <= index <= |cells| && |valMatrix| == |cells| - index
      invariant forall i :: 0 <= i < |valMatrix| ==> valMatrix[i] == cells[|cells| - 1 - i]
    {
      valMatrix := valMatrix + [cells[index - 1]];
      index := index - 1;
    }
  }

  /** The number a column spells, most significant cell first, with every
      don't-care read as 0. */
  function ValueOf(cells: seq<string>): nat
  {
    if cells == [] then 0 else 2 * ValueOf(cells[..|cells| - 1]) + CellBit(cells[|cells| - 1])
  }

  /** For a column of `n` cells, bit `n - 1 - k` of its value is set
      exactly when cell `k` is "1", and the value is below 2^n. */
  lemma {:induction false} ValueOfBits(cells: seq<string>)
    ensures ValueOf(cells) < Pow2(|cells|)
    ensures forall k :: 0 <= k < |cells| ==> Bit(ValueOf(cells), |cells| - 1 - k) == CellBit(cells[k])
    decreases |cells|
  {
    if cells != [] {
      var n := |cells|;
      var front := cells[..n - 1];
      var v := ValueOf(cells);
      ValueOfBits(front);
      assert v / 2 == ValueOf(front) && v % 2 == CellBit(cells[n - 1]);
      forall k | 0 <= k < n
        ensures Bit(v, n - 1 - k) == CellBit(cells[k])
      {
        if k == n - 1 {
          assert Bit(v, 0) == v % 2;
        } else {
          BitHalf(v, n - 2 - k);
          assert front[k] == cells[k];
        }
      }
    }
  }

  /** `getValueFromList`: OR in bit `i` for each "1" of the reversed
      column. */
  method GetValueFromList(cells: seq<string>) returns (value: nat)
    ensures value == ValueOf(cells)
  {
    var valMatrix := Reversed(cells);
    value := 0;
    for i := 0 to |valMatrix|
      invariant value < Pow2(i)
      invariant forall j :: 0 <= j < i ==> Bit(value, j) == CellBit(valMatrix[j])
      invariant forall j :: i <= j ==> Bit(value, j) == 0
    {
      if valMatrix[i] == HIGH {
        forall j | 0 <= j
          ensures Bit(SetBit(value, i, 1), j) == if j == i then 1 else Bit(value, j)
        {
          SetBitReads(value, i, 1, j);
        }
        SetBitBound(value, i, 1, i + 1);
        value := SetBit(value, i, 1);
      }
    }
    ValueOfBits(cells);
    BitsDetermine(value, ValueOf(cells), |cells|);
  }

  // ---------------------------------------------------------------------
  // Expanding don't-cares
  // ---------------------------------------------------------------------

  /** `v` is one of the addresses a column stands for: it has the column's
      width and agrees with every fixed cell. */
  predicate Matches(v: nat, cells: seq<string>)
  {
    && v < Pow2(|cells|)
    && forall k :: 0 <= k < |cells| && Fixed(cells[k]) ==> Bit(v, |cells| - 1 - k) == CellBit(cells[k])
  }

  predicate Distinct<T(==)>(s: seq<T>)
  {
    forall i, j :: 0 <= i < j < |s| ==> s[i] != s[j]
  }

  /** The value packed from a column is one of its expansions (every
      don't-care 0). */
  lemma ValueIsPossible(cells: seq<string>)
    ensures Matches(ValueOf(cells), cells)
  {
    ValueOfBits(cells);
  }

  /** The number of don't-cares in a column. */
  function FreeCount(cells: seq<string>): nat
  {
    if cells == [] then 0
    else FreeCount(cells[..|cells| - 1]) + (if Fixed(cells[|cells| - 1]) then 0 else 1)
  }

  /** Each value of `e` shifted left by one, with `b` as its new bit 0. */
  function Shift(e: seq<nat>, b: nat): (r: seq<nat>)
    ensures |r| == |e|
  {
    seq(|e|, i requires 0 <= i < |e| => 2 * e[i] + b)
  }

  /** A reference enumeration of a column's expansions: each cell doubles
      the choices for a don't-care, and fixes bit 0 otherwise. */
  function Expand(cells: seq<string>): seq<nat>
  {
    if cells == [] then [0]
    else
      var e, c := Expand(cells[..|cells| - 1]), cells[|cells| - 1];
      if c == HIGH then Shift(e, 1)
      else if c == LOW then Shift(e, 0)
      else Shift(e, 0) + Shift(e, 1)
  }

  lemma ShiftMembers(e: seq<nat>, b: nat, v: nat)
    requires b < 2
    ensures v in Shift(e, b) <==> v % 2 == b && v / 2 in e
  {
    if v % 2 == b && v / 2 in e {
      var i :| 0 <= i < |e| && e[i] == v / 2;
      assert Shift(e, b)[i] == v;
    }
  }

  lemma ShiftDistinct(e: seq<nat>, b: nat)
    requires Distinct(e)
    ensures Distinct(Shift(e, b))
  {
  }

  /** Matching a longer column: the front cells fix the upper bits, the
      last cell bit 0. */
  lemma MatchesSnoc(v: nat, cells: seq<string>)
    requires cells != []
    ensures Matches(v, cells) <==>
      var front, c := cells[..|cells| - 1], cells[|cells| - 1];
      Matches(v / 2, front) && (Fixed(c) ==> v % 2 == CellBit(c))
  {
    var n := |cells|;
    var front, c := cells[..n - 1], cells[n - 1];
    assert Pow2(n) == 2 * Pow2(n - 1);
    assert Bit(v, 0) == v % 2;
    forall k | 0 <= k < n - 1
      ensures Bit(v, n - 1 - k) == Bit(v / 2, n - 2 - k) && front[k] == cells[k]
    {
      BitHalf(v, n - 2 - k);
    }
    if Matches(v / 2, front) && (Fixed(c) ==> v % 2 == CellBit(c)) {
      forall k | 0 <= k < n && Fixed(cells[k])
        ensures Bit(v, n - 1 - k) == CellBit(cells[k])
      {
      }
    }
    if Matches(v, cells) {
      forall k | 0 <= k < n - 1 && Fixed(front[k])
        ensures Bit(v / 2, n - 2 - k) == CellBit(front[k])
      {
        assert Bit(v, n - 1 - k) == CellBit(cells[k]);
      }
    }
  }

  /** `Expand` has 2^FreeCount entries. */
  lemma {:induction false} ExpandLength(cells: seq<string>)
    ensures |Expand(cells)| == Pow2(FreeCount(cells))
    decreases |cells|
  {
    if cells != [] {
      ExpandLength(cells[..|cells| - 1]);
    }
  }

  /** `Expand` lists no value twice. */
  lemma {:induction false} ExpandDistinct(cells: seq<string>)
    ensures Distinct(Expand(cells))
    decreases |cells|
  {
    if cells != [] {
      var e := Expand(cells[..|cells| - 1]);
      ExpandDistinct(cells[..|cells| - 1]);
      ShiftDistinct(e, 0);
      ShiftDistinct(e, 1);
      BothShiftsDistinct(e);
    }
  }

  /** The even and the odd shifts of a list without repeats, one after the
      other, repeat nothing: no even value equals an odd one. */
  lemma BothShiftsDistinct(e: seq<nat>)
    requires Distinct(Shift(e, 0)) && Distinct(Shift(e, 1))
    ensures Distinct(Shift(e, 0) + Shift(e, 1))
  {
    var s0, s1 := Shift(e, 0), Shift(e, 1);
    forall i, j | 0 <= i < j < |s0 + s1|
      ensures (s0 + s1)[i] != (s0 + s1)[j]
    {
      if i < |s0| <= j {
        Halve(e[i], 0);
        Halve(e[j - |s0|], 1);
      }
    }
  }

  /** `Expand` lists exactly the values that match the column. */
  lemma {:induction false} ExpandMembers(cells: seq<string>)
    ensures forall v: nat :: v in Expand(cells) <==> Matches(v, cells)
    decreases |cells|
  {
    if cells == [] {
      forall v: nat
        ensures v in Expand(cells) <==> Matches(v, cells)
      {
      }
    } else {
      var front := cells[..|cells| - 1];
      var e := Expand(front);
      ExpandMembers(front);
      forall v: nat
        ensures v in Expand(cells) <==> Matches(v, cells)
      {
        MatchesSnoc(v, cells);
        ShiftMembers(e, 0, v);
        ShiftMembers(e, 1, v);
      }
    }
  }

  lemma {:induction false} DistinctCounts<T>(a: seq<T>)
    requires Distinct(a)
    ensures forall x :: multiset(a)[x] == if x in a then 1 else 0
    decreases |a|
  {
    if a != [] {
      DistinctCounts(a[1..]);
      assert a == [a[0]] + a[1..];
      assert a[0] !in a[1..];
    }
  }

  /** Two duplicate-free lists of the same values have the same length. */
  lemma SameValuesSameLength<T>(a: seq<T>, b: seq<T>)
    requires Distinct(a) && Distinct(b)
    requires forall x :: x in a <==> x in b
    ensures |a| == |b|
  {
    DistinctCounts(a);
    DistinctCounts(b);
    assert forall x :: multiset(a)[x] == multiset(b)[x];
    assert multiset(a) == multiset(b);
    assert |multiset(a)| == |a| && |multiset(b)| == |b|;
  }

  /** One pass of the inner loop of `getPossiableValueCombinations`: clear
      bit `index`, then OR in the cell's bit if it is fixed. */
  method ForceBit(value: nat, index: nat, item: string) returns (r: nat)
    ensures Fixed(item) ==> r == SetBit(value, index, CellBit(item))
    ensures !Fixed(item) ==> r == value
  {
    r := value;
    if item == HIGH || item == LOW {
      r := SetBit(r, index, 0);
      if item == HIGH {
        r := SetBit(r, index, 1);
      }
      SetBitTwice(value, index, 0, CellBit(item));
      if item == LOW {
        assert r == SetBit(value, index, 0);
      }
    }
  }

  /** The inner loop of `getPossiableValueCombinations` over the reversed
      column: every fixed cell forces its bit, every other bit of the trial
      value is kept. */
  method ForceFixed(tryVal: nat, valMatrix: seq<string>) returns (value: nat)
    requires tryVal < Pow2(|valMatrix|)
    ensures value < Pow2(|valMatrix|)
    ensures forall j :: 0 <= j < |valMatrix| ==>
      Bit(value, j) == if Fixed(valMatrix[j]) then CellBit(valMatrix[j]) else Bit(tryVal, j)
  {
    var n := |valMatrix|;
    value := tryVal;
    var index := 0;
    while index < n
      invariant 0 <= index <= n && value < Pow2(n)
      invariant forall j :: 0 <= j < n ==>
        Bit(value, j) == if j < index && Fixed(valMatrix[j]) then CellBit(valMatrix[j]) else Bit(tryVal, j)
    {
      var item := valMatrix[index];
      var next := ForceBit(value, index, item);
      if Fixed(item) {
        forall j | 0 <= j < n
          ensures Bit(next, j) == if j == index then CellBit(item) else Bit(value, j)
        {
          SetBitReads(value, index, CellBit(item), j);
        }
        SetBitBound(value, index, CellBit(item), n);
      }
      value := next;
      index := index + 1;
    }
  }

  /** The bits of a trial value after forcing, read back in column order. */
  lemma ForcedBits(cells: seq<string>, valMatrix: seq<string>, tryVal: nat, value: nat)
    requires |valMatrix| == |cells|
    requires forall i :: 0 <= i < |cells| ==> valMatrix[i] == cells[|cells| - 1 - i]
    requires forall j :: 0 <= j < |valMatrix| ==>
      Bit(value, j) == if Fixed(valMatrix[j]) then CellBit(valMatrix[j]) else Bit(tryVal, j)
    ensures forall k :: 0 <= k < |cells| ==>
      Bit(value, |cells| - 1 - k) == if Fixed(cells[k]) then CellBit(cells[k]) else Bit(tryVal, |cells| - 1 - k)
  {
    var n := |cells|;
    forall k | 0 <= k < n
      ensures Bit(value, n - 1 - k) == if Fixed(cells[k]) then CellBit(cells[k]) else Bit(tryVal, n - 1 - k)
    {
      assert valMatrix[n - 1 - k] == cells[k];
    }
  }

  /** A trial value that already matches comes out unchanged. */
  lemma MatchingKept(cells: seq<string>, tryVal: nat, value: nat)
    requires value < Pow2(|cells|) && Matches(tryVal, cells)
    requires forall k :: 0 <= k < |cells| ==>
      Bit(value, |cells| - 1 - k) == if Fixed(cells[k]) then CellBit(cells[k]) else Bit(tryVal, |cells| - 1 - k)
    ensures value == tryVal
  {
    var n := |cells|;
    forall j | 0 <= j < n
      ensures Bit(value, j) == Bit(tryVal, j)
    {
      var k := n - 1 - j;
      assert Bit(value, n - 1 - k) == if Fixed(cells[k]) then CellBit(cells[k]) else Bit(tryVal, n - 1 - k);
      assert Fixed(cells[k]) ==> Bit(tryVal, n - 1 - k) == CellBit(cells[k]);
    }
    BitsDetermine(value, tryVal, n);
  }

  /** Forcing the fixed bits of 0 gives the packed value of the column. */
  lemma ZeroForced(cells: seq<string>, value: nat)
    requires value < Pow2(|cells|)
    requires forall k :: 0 <= k < |cells| ==>
      Bit(value, |cells| - 1 - k) == if Fixed(cells[k]) then CellBit(cells[k]) else Bit(0, |cells| - 1 - k)
    ensures value == ValueOf(cells)
  {
    var n := |cells|;
    ValueOfBits(cells);
    forall j | 0 <= j < n
      ensures Bit(value, j) == Bit(ValueOf(cells), j)
    {
      var k := n - 1 - j;
      assert Bit(0, n - 1 - k) == 0;
      assert Bit(value, n - 1 - k) == if Fixed(cells[k]) then CellBit(cells[k]) else 0;
      assert Bit(ValueOf(cells), n - 1 - k) == CellBit(cells[k]);
    }
    BitsDetermine(value, ValueOf(cells), n);
  }

  /** `getPossiableValueCombinations`: for every trial value below 2^n,
      force the fixed bits, and keep each result the first time it
      appears. The result lists every expansion of the column once, the
      packed value of the column first. */
  method GetPossibleValueCombinations(cells: seq<string>) returns (valueList: seq<nat>)
    ensures Distinct(valueList)
    ensures forall v :: v in valueList <==> Matches(v, cells)
    ensures |valueList| == Pow2(FreeCount(cells))
    ensures valueList[0] == ValueOf(cells)
  {
    valueList := [];
    var valMatrix := Reversed(cells);
    var n := |valMatrix|;
    var maxVal := Pow2(n);
    for tryVal := 0 to maxVal
      invariant Distinct(valueList)
      invariant forall v :: v in valueList ==> Matches(v, cells)
      invariant forall v: nat :: v < tryVal && Matches(v, cells) ==> v in valueList
      invariant tryVal == 0 ==> valueList == []
      invariant tryVal > 0 ==> |valueList| > 0 && valueList[0] == ValueOf(cells)
    {
      var value := ForceFixed(tryVal, valMatrix);
      ForcedBits(cells, valMatrix, tryVal, value);
      assert Matches(value, cells);
      if Matches(tryVal, cells) {
        MatchingKept(cells, tryVal, value);
      }
      if tryVal == 0 {
        ZeroForced(cells, value);
      }
      if value !in valueList {
        valueList := valueList + [value];
      }
    }
    ExpandLength(cells);
    ExpandDistinct(cells);
    ExpandMembers(cells);
    SameValuesSameLength(valueList, Expand(cells));
  }
}
