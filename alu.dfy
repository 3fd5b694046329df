/** The arithmetic logic unit: 8-bit add and subtract with carry/borrow,
    bitwise logic, and the zero/carry/negative flags every operation rewrites. */
module Alu {
  import opened Common

  datatype Flags = Flags(zero: bool, carry: bool, negative: bool)

  const Cleared: Flags := Flags(false, false, false)

  /** `_updateFlags`: zero when the result is 0, negative when bit 7
      (`result & 0x80`) is set, carry as given. */
  function FlagsFor(result: byte, carry: bool): Flags
  {
    Flags(result == 0, carry, result >= 0x80)
  }

  /** `add`: a 9-bit sum (`& 0x1FF`), carry out when it exceeds 0xFF, result
      its low byte. */
  function AddOp(a: int, b: int, carryIn: int): (byte, bool)
  {
    var sum := (a + b + carryIn) % 512;
    (sum % 256, sum > 0xFF)
  }

  /** `subtract`: the difference, borrow when it is negative, the result
      wrapped by adding 256 before masking. */
  function SubOp(a: int, b: int, borrowIn: int): (byte, bool)
  {
    var diff := a - b - borrowIn;
    var borrow := diff < 0;
    if diff < 0 then ((diff + 256) % 256, borrow) else (diff % 256, borrow)
  }

  /** The low `n` bits of `a & b`, built bit by bit from the least
      significant end. */
  function BitAnd(a: nat, b: nat, n: nat): (r: nat)
    ensures r < Pow2(n)
  {
    if n == 0 then 0
    else 2 * BitAnd(a / 2, b / 2, n - 1) + (if a % 2 == 1 && b % 2 == 1 then 1 else 0)
  }

  /** The low `n` bits of `a | b`. */
  function BitOr(a: nat, b: nat, n: nat): (r: nat)
    ensures r < Pow2(n)
  {
    if n == 0 then 0
    else 2 * BitOr(a / 2, b / 2, n - 1) + (if a % 2 == 1 || b % 2 == 1 then 1 else 0)
  }

  /** The low `n` bits of `a ^ b`. */
  function BitXor(a: nat, b: nat, n: nat): (r: nat)
    ensures r < Pow2(n)
  {
    if n == 0 then 0
    else 2 * BitXor(a / 2, b / 2, n - 1) + (if a % 2 != b % 2 then 1 else 0)
  }

  /** `(a & b) & 0xFF`. */
  function AndOp(a: byte, b: byte): byte { assert Pow2(8) == 256; BitAnd(a, b, 8) }
  /** `(a | b) & 0xFF`. */
  function OrOp(a: byte, b: byte): byte { assert Pow2(8) == 256; BitOr(a, b, 8) }
  /** `(a ^ b) & 0xFF`. */
  function XorOp(a: byte, b: byte): byte { assert Pow2(8) == 256; BitXor(a, b, 8) }
  /** `(~value) & 0xFF`, with Python's `~v == -v - 1`. */
  function NotOp(value: int): byte { (-value - 1) % 256 }

  /** On bytes with a carry-in of 0 or 1 the sum is taken modulo 256 and the
      carry is set exactly when the true sum exceeds 255. */
  lemma AddOpMeaning(a: byte, b: byte, carryIn: int)
    requires 0 <= carryIn <= 1
    ensures AddOp(a, b, carryIn).0 == (a + b + carryIn) % 256
    ensures AddOp(a, b, carryIn).1 <==> a + b + carryIn > 255
    ensures AddOp(a, b, carryIn).1 ==> AddOp(a, b, carryIn).0 == a + b + carryIn - 256
  {
  }

  /** For any integers the difference is taken modulo 256 and the borrow is
      set exactly when the true difference is negative. */
  lemma SubOpMeaning(a: int, b: int, borrowIn: int)
    ensures SubOp(a, b, borrowIn).0 == (a - b - borrowIn) % 256
    ensures SubOp(a, b, borrowIn).1 <==> a - b - borrowIn < 0
  {
  }

  /** Subtraction undoes addition on bytes. */
  lemma {:induction false} SubUndoesAdd(a: byte, b: byte)
    ensures SubOp(AddOp(a, b, 0).0, b, 0).0 == a
  {
    AddOpMeaning(a, b, 0);
    SubOpMeaning(AddOp(a, b, 0).0, b, 0);
  }

  /** The complement of a byte is 255 minus it, so NOT is its own inverse. */
  lemma NotIsComplement(v: byte)
    ensures NotOp(v) == 255 - v
    ensures NotOp(NotOp(v)) == v
  {
  }

  lemma {:induction false} AndBounds(a: nat, b: nat, n: nat)
    requires a < Pow2(n) && b < Pow2(n)
    ensures BitAnd(a, b, n) <= a && BitAnd(a, b, n) <= b
    ensures BitAnd(a, Pow2(n) - 1, n) == a
  {
    if n > 0 {
      AndBounds(a / 2, b / 2, n - 1);
      assert (Pow2(n) - 1) / 2 == Pow2(n - 1) - 1 && (Pow2(n) - 1) % 2 == 1;
    }
  }

  lemma {:induction false} OrBounds(a: nat, b: nat, n: nat)
    requires a < Pow2(n) && b < Pow2(n)
    ensures BitOr(a, b, n) >= a && BitOr(a, b, n) >= b
    ensures BitOr(a, 0, n) == a
  {
    if n > 0 {
      OrBounds(a / 2, b / 2, n - 1);
    }
  }

  lemma {:induction false} XorSelf(a: nat, n: nat)
    ensures BitXor(a, a, n) == 0
  {
    if n > 0 {
      XorSelf(a / 2, n - 1);
    }
  }

  /** Bitwise laws on bytes: AND never exceeds its operands and keeps a value
      under the mask 0xFF, OR never falls below them and keeps a value under
      0, a value XORed with itself is zero. */
  lemma LogicLaws(a: byte, b: byte)
    ensures AndOp(a, b) <= a && AndOp(a, b) <= b && AndOp(a, 0xFF) == a
    ensures OrOp(a, b) >= a && OrOp(a, b) >= b && OrOp(a, 0) == a
    ensures XorOp(a, a) == 0
  {
    assert Pow2(8) == 256;
    AndBounds(a, b, 8);
    OrBounds(a, b, 8);
    XorSelf(a, 8);
  }

  class Alu {
    var zero: bool
    var carry: bool
    var negative: bool
    var temp1: int
    var temp2: int

    /** `getFlags`. */
    function GetFlags(): Flags
      reads this
    {
      Flags(zero, carry, negative)
    }

    constructor()
      ensures GetFlags() == Cleared && temp1 == 0 && temp2 == 0
    {
      zero, carry, negative := false, false, false;
      temp1, temp2 := 0, 0;
    }

    method Reset()
      modifies this
      ensures GetFlags() == Cleared && temp1 == 0 && temp2 == 0
    {
      zero, carry, negative := false, false, false;
      temp1, temp2 := 0, 0;
    }

    /** `set_temps`. */
    method SetTemps(val1: int, val2: int)
      modifies this
      ensures temp1 == val1 % 256 && temp2 == val2 % 256
      ensures GetFlags() == old(GetFlags())
    {
      temp1 := val1 % 256;
      temp2 := val2 % 256;
    }

    method UpdateFlags(result: byte, carryOut: bool)
      modifies this
      ensures GetFlags() == FlagsFor(result, carryOut)
      ensures temp1 == old(temp1) && temp2 == old(temp2)
    {
      zero := result == 0;
      carry := carryOut;
      negative := result >= 0x80;
    }

    method Add(a: int, b: int, carryIn: int := 0) returns (result: byte, carryOut: bool)
      modifies this
      ensures (result, carryOut) == AddOp(a, b, carryIn)
      ensures GetFlags() == FlagsFor(result, carryOut)
      ensures temp1 == old(temp1) && temp2 == old(temp2)
    {
      var sum := (a + b + carryIn) % 512;
      carryOut := sum > 0xFF;
      result := sum % 256;
      UpdateFlags(result, carryOut);
    }

    method Subtract(a: int, b: int, borrowIn: int := 0) returns (result: byte, borrowOut: bool)
      modifies this
      ensures (result, borrowOut) == SubOp(a, b, borrowIn)
      ensures GetFlags() == FlagsFor(result, borrowOut)
      ensures temp1 == old(temp1) && temp2 == old(temp2)
    {
      var diff := a - b - borrowIn;
      borrowOut := diff < 0;
      if diff < 0 {
        result := (diff + 256) % 256;
      } else {
        result := diff % 256;
      }
      UpdateFlags(result, borrowOut);
    }

    method Increment(value: int) returns (result: byte)
      modifies this
      ensures result == AddOp(value, 1, 0).0
      ensures GetFlags() == FlagsFor(result, AddOp(value, 1, 0).1)
      ensures temp1 == old(temp1) && temp2 == old(temp2)
    {
      var c;
      result, c := Add(value, 1, 0);
    }

    method Decrement(value: int) returns (result: byte)
      modifies this
      ensures result == SubOp(value, 1, 0).0
      ensures GetFlags() == FlagsFor(result, SubOp(value, 1, 0).1)
      ensures temp1 == old(temp1) && temp2 == old(temp2)
    {
      var b;
      result, b := Subtract(value, 1, 0);
    }

    method LogicalAnd(a: byte, b: byte) returns (result: byte)
      modifies this
      ensures result == AndOp(a, b) && GetFlags() == FlagsFor(result, false)
      ensures temp1 == old(temp1) && temp2 == old(temp2)
    {
      result := AndOp(a, b);
      UpdateFlags(result, false);
    }

    method LogicalOr(a: byte, b: byte) returns (result: byte)
      modifies this
      ensures result == OrOp(a, b) && GetFlags() == FlagsFor(result, false)
      ensures temp1 == old(temp1) && temp2 == old(temp2)
    {
      result := OrOp(a, b);
      UpdateFlags(result, false);
    }

    method LogicalXor(a: byte, b: byte) returns (result: byte)
      modifies this
      ensures result == XorOp(a, b) && GetFlags() == FlagsFor(result, false)
      ensures temp1 == old(temp1) && temp2 == old(temp2)
    {
      result := XorOp(a, b);
      UpdateFlags(result, false);
    }

    method LogicalNot(value: int) returns (result: byte)
      modifies this
      ensures result == NotOp(value) && GetFlags() == FlagsFor(result, false)
      ensures temp1 == old(temp1) && temp2 == old(temp2)
    {
      result := NotOp(value);
      UpdateFlags(result, false);
    }

    /** `compare`: the flags of `subtract(a, b)`, no result. */
    method Compare(a: int, b: int)
      modifies this
      ensures GetFlags() == FlagsFor(SubOp(a, b, 0).0, SubOp(a, b, 0).1)
      ensures temp1 == old(temp1) && temp2 == old(temp2)
    {
      var r, bo := Subtract(a, b, 0);
    }

    /** `setFlag`: only the three existing flag names are changed. */
    method SetFlag(flagName: string, value: bool)
      modifies this
      ensures GetFlags() == SetFlagSpec(old(GetFlags()), flagName, value)
      ensures temp1 == old(temp1) && temp2 == old(temp2)
    {
      if flagName == "zero" {
        zero := value;
      } else if flagName == "carry" {
        carry := value;
      } else if flagName == "negative" {
        negative := value;
      }
    }
  }

  function SetFlagSpec(f: Flags, flagName: string, value: bool): Flags
  {
    if flagName == "zero" then f.(zero := value)
    else if flagName == "carry" then f.(carry := value)
    else if flagName == "negative" then f.(negative := value)
    else f
  }

  /** `setFlag` changes the named flag only; an unknown name changes nothing. */
  lemma SetFlagFrame(f: Flags, flagName: string, value: bool)
    ensures var g := SetFlagSpec(f, flagName, value);
      && (g.zero == if flagName == "zero" then value else f.zero)
      && (g.carry == if flagName == "carry" then value else f.carry)
      && (g.negative == if flagName == "negative" then value else f.negative)
  {
  }

  /** The flag laws of every operation, as one statement per operation. */
  lemma FlagLaws(a: byte, b: byte)
    ensures var (r, c) := AddOp(a, b, 0);
      FlagsFor(r, c) == Flags(r == 0, a + b > 255, r >= 128)
    ensures var (r, c) := SubOp(a, b, 0);
      FlagsFor(r, c) == Flags(a == b, a < b, r >= 128)
    ensures !FlagsFor(AndOp(a, b), false).carry && !FlagsFor(NotOp(a), false).carry
  {
    AddOpMeaning(a, b, 0);
    SubOpMeaning(a, b, 0);
  }

  /** Increment of 255 wraps to 0 with carry and zero set; decrement of 0
      wraps to 255 with borrow and negative set. */
  lemma WrapAround()
    ensures AddOp(255, 1, 0) == (0, true) && FlagsFor(0, true) == Flags(true, true, false)
    ensures SubOp(0, 1, 0) == (255, true) && FlagsFor(255, true) == Flags(false, true, true)
  {
  }
}
