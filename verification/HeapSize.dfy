/** JVM heap sizing: a memory limit in bytes becomes a numeral with a unit letter.
    The factor is exact (4/5 for 0.8) and limits are whole bytes. */
module HeapSize {
  import opened Outcomes
  import opened Text

  const JVM_HEAP_FACTOR: real := 0.8

  const KI: int := 0x400
  const MI: int := 0x10_0000
  const GI: int := 0x4000_0000
  const TI: int := 0x100_0000_0000

  /** `fmt.Sprintf("%d%s", int(heapSize*factor), unit)`: the conversion truncates. */
  function Printed(limit: int, unit: int, factor: real): nat
    requires limit >= 0 && unit > 0 && factor >= 0.0
  {
    var scaled := limit as real / unit as real * factor;
    assert scaled >= 0.0 by { assert limit as real / unit as real >= 0.0; }
    scaled.Floor
  }

  function GetHeapSize(limit: int, factor: real): Outcome<string>
    requires factor >= 0.0
  {
    if limit >= TI then Ok(Decimal(Printed(limit, GI, factor)) + "G")
    else if limit >= GI then Ok(Decimal(Printed(limit, MI, factor)) + "M")
    else if limit >= MI then Ok(Decimal(Printed(limit, KI, factor)) + "K")
    else Panic
  }

  /** The unit letters as the JVM reads them. */
  function UnitBytes(letter: char): nat {
    if letter == 'K' then KI else if letter == 'M' then MI else if letter == 'G' then GI else 1
  }

  /** The number of bytes a heap option such as 819M denotes. */
  function Denoted(text: string): nat
    requires text != "" && AllDigits(text[..|text| - 1])
  {
    ParseDecimal(text[..|text| - 1]) * UnitBytes(text[|text| - 1])
  }

  predicate IsHeapText(text: string) {
    text != "" && AllDigits(text[..|text| - 1]) && text[|text| - 1] in "KMG"
  }

  /** The size of one printed unit of a heap option. */
  function PrintedUnit(text: string): nat
    requires text != ""
  {
    UnitBytes(text[|text| - 1])
  }

  function HeapOption(limit: int): string
    requires limit >= MI
  {
    GetHeapSize(limit, JVM_HEAP_FACTOR).value
  }

  /** The heap in bytes for a limit, read back from the printed option. */
  function Heap(limit: int): nat
    requires limit >= MI && IsHeapText(HeapOption(limit))
  {
    Denoted(HeapOption(limit))
  }

  lemma TextReadsBack(n: nat, letter: char)
    requires letter in "KMG"
    ensures var text := Decimal(n) + [letter];
            IsHeapText(text) && Denoted(text) == n * UnitBytes(letter) && PrintedUnit(text) == UnitBytes(letter)
  {
    ParseOfDecimal(n);
    assert (Decimal(n) + [letter])[..|Decimal(n)|] == Decimal(n);
  }

  function BandUnit(limit: int): int {
    if limit >= TI then GI else if limit >= GI then MI else KI
  }

  lemma Truncation(limit: int, unit: int)
    requires limit >= 0 && unit in {KI, MI, GI}
    ensures var n := Printed(limit, unit, JVM_HEAP_FACTOR); 5 * (n * unit) <= 4 * limit < 5 * (n * unit + unit)
  {
    var n := Printed(limit, unit, JVM_HEAP_FACTOR);
    assert n as real <= limit as real / unit as real * 0.8 < n as real + 1.0;
    if unit == KI {
    } else if unit == MI {
    } else {
    }
  }

  /** What the JVM reads back is a whole number of band units, the largest not above 4/5 of the limit. */
  lemma HeapIsWholeUnits(limit: int) returns (n: nat)
    requires limit >= MI
    ensures IsHeapText(HeapOption(limit))
    ensures PrintedUnit(HeapOption(limit)) == BandUnit(limit)
    ensures Heap(limit) == n * BandUnit(limit)
    ensures 5 * Heap(limit) <= 4 * limit < 5 * (Heap(limit) + BandUnit(limit))
  {
    var unit := BandUnit(limit);
    n := Printed(limit, unit, JVM_HEAP_FACTOR);
    TextReadsBack(n, if unit == GI then 'G' else if unit == MI then 'M' else 'K');
    Truncation(limit, unit);
  }

  /** The printed heap never exceeds 4/5 of the limit and falls short by less than one printed
      unit, which is at most 1/1024 of the limit; so the heap fraction lies in (4/5 - 1/1024, 4/5]. */
  lemma HeapFraction(limit: int)
    requires limit >= MI
    ensures IsHeapText(HeapOption(limit))
    ensures 5 * Heap(limit) <= 4 * limit < 5 * (Heap(limit) + PrintedUnit(HeapOption(limit)))
    ensures 1024 * PrintedUnit(HeapOption(limit)) <= limit
    ensures 5 * 1024 * Heap(limit) > (4 * 1024 - 5) * limit
  {
    var _ := HeapIsWholeUnits(limit);
  }

  /** `heap` is the largest multiple of `unit` not above 4/5 of `limit`. */
  predicate Truncates(limit: int, unit: int, n: int, heap: int) {
    heap == n * unit && 5 * heap <= 4 * limit < 5 * (heap + unit)
  }

  lemma SameUnitMonotone(small: int, large: int, unit: int, s: int, l: int, hs: int, hl: int)
    requires small <= large && unit in {KI, MI, GI}
    requires Truncates(small, unit, s, hs) && Truncates(large, unit, l, hl)
    ensures hs <= hl
  {
    if unit == KI {
    } else if unit == MI {
    } else {
    }
  }

  lemma StraddlingDrop(small: int, large: int, fine: int, s: int, l: int, hs: int, hl: int)
    requires fine in {KI, MI}
    requires 1024 * fine <= small < MI * fine <= large
    requires Truncates(small, fine, s, hs) && Truncates(large, 1024 * fine, l, hl)
    ensures hs <= hl <==> !DropsAcross(small, large, MI * fine, fine, 1024 * fine)
  {
    if fine == KI {
      assert hs == s * 1024 && hl == l * 0x10_0000;
    } else {
      assert hs == s * 0x10_0000 && hl == l * 0x4000_0000;
    }
  }

  /** Across all bands the heap can drop by less than one printed unit of the larger limit;
      within a band it cannot drop. */
  lemma HeapAlmostMonotone(small: int, large: int)
    requires MI <= small <= large
    ensures IsHeapText(HeapOption(small)) && IsHeapText(HeapOption(large))
    ensures Heap(small) < Heap(large) + PrintedUnit(HeapOption(large))
    ensures PrintedUnit(HeapOption(small)) == PrintedUnit(HeapOption(large)) ==> Heap(small) <= Heap(large)
  {
    var s := HeapIsWholeUnits(small);
    var l := HeapIsWholeUnits(large);
    if BandUnit(small) == BandUnit(large) {
      SameUnitMonotone(small, large, BandUnit(small), s, l, Heap(small), Heap(large));
    }
  }

  /** Two limits straddle a change of unit, and 4/5 of the larger one truncates to 819 of the
      coarse unit while 4/5 of the smaller one reaches past 819 of them in the fine unit. */
  predicate DropsAcross(small: int, large: int, boundary: int, fine: int, coarse: int) {
    small < boundary <= large
    && 4 * small >= 5 * (819 * 1024 + 1) * fine
    && 4 * large < 5 * 820 * coarse
  }

  /** Monotonicity holds for a pair of limits exactly outside the two windows around 2^30 and 2^40. */
  lemma HeapMonotoneExactly(small: int, large: int)
    requires MI <= small <= large
    ensures IsHeapText(HeapOption(small)) && IsHeapText(HeapOption(large))
    ensures Heap(small) <= Heap(large)
            <==> !DropsAcross(small, large, GI, KI, MI) && !DropsAcross(small, large, TI, MI, GI)
  {
    var s := HeapIsWholeUnits(small);
    var l := HeapIsWholeUnits(large);
    var hs, hl := Heap(small), Heap(large);
    if BandUnit(small) == BandUnit(large) {
      SameUnitMonotone(small, large, BandUnit(small), s, l, hs, hl);
    } else if large < TI {
      StraddlingDrop(small, large, KI, s, l, hs, hl);
    } else if GI <= small {
      StraddlingDrop(small, large, MI, s, l, hs, hl);
    }
  }

  /** The smallest step at which monotonicity fails: one byte below a gibibyte against a gibibyte. */
  lemma HeapDropWitness()
    ensures IsHeapText(HeapOption(GI - 1)) && IsHeapText(HeapOption(GI))
    ensures Heap(GI - 1) == 838860 * KI && Heap(GI) == 819 * MI == 838656 * KI
    ensures Heap(GI) < Heap(GI - 1)
  {
    var _ := HeapIsWholeUnits(GI - 1);
    var _ := HeapIsWholeUnits(GI);
  }
}
