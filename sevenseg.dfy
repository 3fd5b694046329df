/** The lookup table that drives four 7-segment digits from one EEPROM.

    An address holds the sign mode in bit 10, the digit position in bits
    9-8 (thousand 00, ten 01, hundred 10, unit 11) and the displayed byte
    in bits 7-0; the cell is the segment pattern for that position. The
    unsigned half shows the byte as 0..255, the signed half shows the
    magnitude `(byte - 1) ^ 0xFF` behind a minus sign. Writing the image
    to a file is left out: the table is returned. */
module SevenSegment {
  import opened Common

  /** `segment_map`: the patterns (g f e d c b a, then the unused bit 0)
      of the digits 0-9, then the minus sign and the blank digit. */
  const Segments: seq<byte> := [0x7E, 0x0C, 0xB6, 0x9E, 0xCC, 0xDA, 0xFA, 0x0E, 0xFE, 0xDE, 0x80, 0x00]

  const SIGN_SEGMENT_INDEX := 10
  const NO_SEGMENT_INDEX := 11
  const Minus: byte := 0x80
  const Blank: byte := 0x00

  /** The position field of an address, and the sign bit. */
  const THOUSAND := 0
  const TEN := 1
  const HUNDRED := 2
  const UNIT := 3
  const SIGN := 4
  const DATA_SIZE := 256
  const EEPROM_SIZE := 2048

  /** `genReverseNegativeNum`: `(num - 1) ^ 0xFF` on Python's unbounded
      two's-complement integers. XOR with 0xFF flips the low eight bits and
      keeps the rest, so it is `256 * (x div 256) + (255 - x mod 256)`
      with floor division, which is Dafny's for a positive divisor. */
  function ReverseNegative(num: int): (r: int)
    ensures 1 <= num <= 256 ==> r == 256 - num
    ensures num == 0 ==> r == -256
  {
    var x := num - 1;
    (x / 256) * 256 + (255 - x % 256)
  }

  /** The unit, ten and hundred digits of the source, with Python's `//` and
      `%` (floor), which for the divisors 10 and 100 are Dafny's. */
  function UnitOf(num: int): (d: nat) ensures d < 10 { num % 10 }
  function TenOf(num: int): (d: nat) ensures d < 10 { (num / 10) % 10 }
  function HundredOf(num: int): (d: nat) ensures d < 10 { (num / 100) % 10 }

  /** The first loop's cell for position `position` and value `num`. */
  function PositiveCell(position: int, num: int): byte
  {
    var unit, ten, hundred := UnitOf(num), TenOf(num), HundredOf(num);
    if position == UNIT then Segments[unit]
    else if position == HUNDRED then
      (if hundred != 0 then Segments[hundred] else Segments[NO_SEGMENT_INDEX])
    else if position == TEN then
      (if ten != 0 || hundred != 0 then Segments[ten] else Segments[NO_SEGMENT_INDEX])
    else Segments[NO_SEGMENT_INDEX]
  }

  /** The second loop's cell for position `position` and magnitude `num`,
      after all of its overwrites, as written. */
  function NegativeCell(position: int, num: int): byte
  {
    var unit, ten, hundred := UnitOf(num), TenOf(num), HundredOf(num);
    if position == UNIT then Segments[unit]
    else if position == TEN then
      (if ten != 0 then Segments[ten] else Segments[SIGN_SEGMENT_INDEX])
    else if position == HUNDRED then
      (if hundred != 0 then Segments[hundred]
       else if ten != 0 then Segments[SIGN_SEGMENT_INDEX]
       else Segments[NO_SEGMENT_INDEX])
    else
      (if hundred != 0 then Segments[SIGN_SEGMENT_INDEX] else Segments[NO_SEGMENT_INDEX])
  }

  /** The second loop's cell as evidently intended: like the first loop,
      a ten digit of 0 is shown when there is a hundred digit. */
  function NegativeCellFixed(position: int, num: int): byte
  {
    var unit, ten, hundred := UnitOf(num), TenOf(num), HundredOf(num);
    if position == UNIT then Segments[unit]
    else if position == TEN then
      (if ten != 0 || hundred != 0 then Segments[ten] else Segments[SIGN_SEGMENT_INDEX])
    else if position == HUNDRED then
      (if hundred != 0 then Segments[hundred]
       else if ten != 0 then Segments[SIGN_SEGMENT_INDEX]
       else Segments[NO_SEGMENT_INDEX])
    else
      (if hundred != 0 then Segments[SIGN_SEGMENT_INDEX] else Segments[NO_SEGMENT_INDEX])
  }

  /** The display position of decimal place `k` (0 the units): the digits
      read thousand, hundred, ten, unit from left to right. */
  function PlaceOf(k: nat): int
    requires k < 4
  {
    if k == 0 then UNIT else if k == 1 then TEN else if k == 2 then HUNDRED else THOUSAND
  }

  function Pow10(k: nat): (r: nat)
    ensures r >= 1
  {
    if k == 0 then 1 else 10 * Pow10(k - 1)
  }

  /** How many decimal digits `v` is shown with: at least one. */
  function DigitCount(v: nat): nat
  {
    if v >= 100 then 3 else if v >= 10 then 2 else 1
  }

  /** Place `k` of `v` in its usual decimal form: its digits without
      leading zeros, then, for a negative number, a minus sign, and blanks
      to the left. */
  function Shown(v: nat, k: nat, negative: bool): byte
    requires k < 4
  {
    if k < DigitCount(v) then Segments[(v / Pow10(k)) % 10]
    else if negative && k == DigitCount(v) then Minus
    else Blank
  }

  /** Which digits of a byte are leading zeros. */
  lemma ByteDigits(v: nat)
    requires v < 256
    ensures HundredOf(v) != 0 <==> v >= 100
    ensures TenOf(v) != 0 || HundredOf(v) != 0 <==> v >= 10
    ensures Pow10(0) == 1 && Pow10(1) == 10 && Pow10(2) == 100 && Pow10(3) == 1000
    ensures UnitOf(v) == (v / Pow10(0)) % 10 && TenOf(v) == (v / Pow10(1)) % 10
    ensures HundredOf(v) == (v / Pow10(2)) % 10
    ensures TenOf(v) == 0 && HundredOf(v) != 0 <==> 100 <= v <= 109 || 200 <= v <= 209
  {
    assert Pow10(3) == 1000 by {
      assert Pow10(2) == 100;
    }
  }

  /** The unsigned half shows every byte in its usual decimal form. */
  lemma PositiveCellShown(v: nat, k: nat)
    requires v < 256 && k < 4
    ensures PositiveCell(PlaceOf(k), v) == Shown(v, k, false)
  {
    ByteDigits(v);
  }

  /** With the fix, the signed half shows every magnitude 1..255 in its
      usual decimal form behind a minus sign. */
  lemma NegativeCellFixedShown(v: nat, k: nat)
    requires 1 <= v < 256 && k < 4
    ensures NegativeCellFixed(PlaceOf(k), v) == Shown(v, k, true)
  {
    ByteDigits(v);
  }

  /** As written, the signed half differs from that exactly at the ten
      position of the magnitudes 100..109 and 200..209, which show a second
      minus sign where the digit 0 belongs. */
  lemma NegativeCellDiffers(v: nat, position: int)
    requires 1 <= v < 256 && 0 <= position < 4
    ensures NegativeCell(position, v) != NegativeCellFixed(position, v)
        <==> position == TEN && (100 <= v <= 109 || 200 <= v <= 209)
  {
    ByteDigits(v);
  }

  /** The byte 151 (-105) shows "-1-5". */
  lemma MinusInsteadOfZero()
    ensures ReverseNegative(151) == 105
    ensures NegativeCell(TEN, 105) == Minus
    ensures NegativeCellFixed(TEN, 105) == Segments[0]
  {
  }

  /** The cell at an address of the image. */
  function Cell(addr: int): byte
    requires 0 <= addr < EEPROM_SIZE
  {
    var position, index := (addr / DATA_SIZE) % 4, addr % DATA_SIZE;
    if addr < SIGN * DATA_SIZE then PositiveCell(position, index)
    else NegativeCell(position, ReverseNegative(index))
  }

  /** The first loop's body: the four positions of value `index`. */
  method FillPositive(eeprom: array<byte>, index: int)
    requires eeprom.Length == EEPROM_SIZE && 0 <= index < DATA_SIZE
    modifies eeprom
    ensures forall p :: 0 <= p < 4 ==> eeprom[p * DATA_SIZE + index] == PositiveCell(p, index)
    ensures forall a :: (0 <= a < EEPROM_SIZE && a != THOUSAND * DATA_SIZE + index && a != TEN * DATA_SIZE + index
                         && a != HUNDRED * DATA_SIZE + index && a != UNIT * DATA_SIZE + index)
                        ==> eeprom[a] == old(eeprom[a])
  {
    var num := index;
    var unit := num % 10;
    var ten := (num / 10) % 10;
    var hundred := (num / 100) % 10;
    eeprom[UNIT * DATA_SIZE + index] := Segments[unit];
    if hundred != 0 {
      eeprom[HUNDRED * DATA_SIZE + index] := Segments[hundred];
    } else {
      eeprom[HUNDRED * DATA_SIZE + index] := Segments[NO_SEGMENT_INDEX];
    }
    if ten != 0 || hundred != 0 {
      eeprom[TEN * DATA_SIZE + index] := Segments[ten];
    } else {
      eeprom[TEN * DATA_SIZE + index] := Segments[NO_SEGMENT_INDEX];
    }
    eeprom[THOUSAND * DATA_SIZE + index] := Segments[NO_SEGMENT_INDEX];
  }

  /** The second loop's body: the four signed positions of value `index`,
      written over and over as the source does. */
  method FillNegative(eeprom: array<byte>, index: int)
    requires eeprom.Length == EEPROM_SIZE && 0 <= index < DATA_SIZE
    modifies eeprom
    ensures forall p :: 0 <= p < 4 ==>
      eeprom[SIGN * DATA_SIZE + p * DATA_SIZE + index] == NegativeCell(p, ReverseNegative(index))
    ensures forall a :: (0 <= a < EEPROM_SIZE && a != SIGN * DATA_SIZE + THOUSAND * DATA_SIZE + index
                         && a != SIGN * DATA_SIZE + TEN * DATA_SIZE + index
                         && a != SIGN * DATA_SIZE + HUNDRED * DATA_SIZE + index
                         && a != SIGN * DATA_SIZE + UNIT * DATA_SIZE + index)
                        ==> eeprom[a] == old(eeprom[a])
  {
    var num := ReverseNegative(index);
    var unit := num % 10;
    var ten := (num / 10) % 10;
    var hundred := (num / 100) % 10;
    eeprom[SIGN * DATA_SIZE + THOUSAND * DATA_SIZE + index] := Segments[NO_SEGMENT_INDEX];
    eeprom[SIGN * DATA_SIZE + TEN * DATA_SIZE + index] := Segments[NO_SEGMENT_INDEX];
    eeprom[SIGN * DATA_SIZE + HUNDRED * DATA_SIZE + index] := Segments[NO_SEGMENT_INDEX];
    eeprom[SIGN * DATA_SIZE + UNIT * DATA_SIZE + index] := Segments[unit];
    if ten != 0 {
      eeprom[SIGN * DATA_SIZE + TEN * DATA_SIZE + index] := Segments[ten];
      eeprom[SIGN * DATA_SIZE + HUNDRED * DATA_SIZE + index] := Segments[SIGN_SEGMENT_INDEX];
    } else {
      eeprom[SIGN * DATA_SIZE + TEN * DATA_SIZE + index] := Segments[SIGN_SEGMENT_INDEX];
    }
    if hundred != 0 {
      eeprom[SIGN * DATA_SIZE + HUNDRED * DATA_SIZE + index] := Segments[hundred];
      eeprom[SIGN * DATA_SIZE + THOUSAND * DATA_SIZE + index] := Segments[SIGN_SEGMENT_INDEX];
    }
  }

  /** The two loops over `eeprom`, on a fresh zero-filled table. */
  method GenerateImage() returns (eeprom: array<byte>)
    ensures fresh(eeprom) && eeprom.Length == EEPROM_SIZE
    ensures forall addr :: 0 <= addr < EEPROM_SIZE ==> eeprom[addr] == Cell(addr)
  {
    eeprom := new byte[EEPROM_SIZE](_ => 0);
    // For positive numbers
    for index := 0 to 256
      invariant forall p, k :: 0 <= p < 4 && 0 <= k < index ==>
        eeprom[p * DATA_SIZE + k] == PositiveCell(p, k)
    {
      FillPositive(eeprom, index);
    }
    // For negative numbers
    for index := 0 to 256
      invariant forall p, k :: 0 <= p < 4 && 0 <= k < DATA_SIZE ==>
        eeprom[p * DATA_SIZE + k] == PositiveCell(p, k)
      invariant forall p, k :: 0 <= p < 4 && 0 <= k < index ==>
        eeprom[SIGN * DATA_SIZE + p * DATA_SIZE + k] == NegativeCell(p, ReverseNegative(k))
    {
      FillNegative(eeprom, index);
    }
    forall addr | 0 <= addr < EEPROM_SIZE
      ensures eeprom[addr] == Cell(addr)
    {
      var p, k := (addr / DATA_SIZE) % 4, addr % DATA_SIZE;
      if addr < SIGN * DATA_SIZE {
        assert addr == p * DATA_SIZE + k;
      } else {
        assert addr == SIGN * DATA_SIZE + p * DATA_SIZE + k;
      }
    }
  }
}
