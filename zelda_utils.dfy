/**
 * Decoding the game's state out of emulator memory. Memory is an abstract
 * total map from address to byte, passed in; the emulator's read
 * primitives are modelled over it.
 */
module ZeldaUtils {
  import opened Wrappers
  import opened Builtins
  import opened AreaMapping

  /** World pixels per exploration tile. */
  const TILE_SIZE: int := 8

  const PLAYER_HEALTH: int := 0x0200_234D
  const ENEMIES_KILLED: int := 0x0200_243A
  const RUPEES: int := 0x0200_2340
  const SMALL_KEYS: int := 0x0200_234F
  const SWORD: int := 0x0200_233D
  const PLAYER_Y: int := 0x0300_38F0
  const PLAYER_X: int := 0x0300_38F4

  type Byte = b: int | 0 <= b < 256

  /** The emulator's memory at one instant. */
  type Memory = int -> Byte

  /** gba.read_memory(addr, size): the `size` bytes from `addr` upwards, as a byte string. */
  function ReadMemory(mem: Memory, addr: int, size: nat): (bs: seq<Byte>)
    ensures |bs| == size && forall i :: 0 <= i < size ==> bs[i] == mem(addr + i)
  {
    seq(size, i => mem(addr + i))
  }

  function ReadU8(mem: Memory, addr: int): Byte {
    mem(addr)
  }

  /** gba.read_u16: a little-endian halfword, as the GBA stores it. */
  function ReadU16(mem: Memory, addr: int): (v: nat)
    ensures v < 0x1_0000
  {
    mem(addr) + 256 * mem(addr + 1)
  }

  /** int.from_bytes(bs, 'little'). */
  function FromBytesLittle(bs: seq<Byte>): nat {
    if |bs| == 0 then 0 else bs[0] + 256 * FromBytesLittle(bs[1..])
  }

  function ReadPlayerX(mem: Memory): nat {
    FromBytesLittle(ReadMemory(mem, PLAYER_X, 4))
  }

  function ReadPlayerY(mem: Memory): nat {
    FromBytesLittle(ReadMemory(mem, PLAYER_Y, 4))
  }

  /** read_player_xy: (X, Y) in that order. */
  function ReadPlayerXY(mem: Memory): (int, int) {
    (ReadPlayerX(mem), ReadPlayerY(mem))
  }

  /** A four-byte coordinate is b0 + 2^8 b1 + 2^16 b2 + 2^24 b3, below 2^32. */
  lemma DecodeFourBytes(mem: Memory, addr: int)
    ensures var v := FromBytesLittle(ReadMemory(mem, addr, 4));
      v == mem(addr) + 256 * mem(addr + 1) + 65536 * mem(addr + 2) + 16777216 * mem(addr + 3)
      && v < 0x1_0000_0000
  {
    var bs := ReadMemory(mem, addr, 4);
    var b1, b2, b3 := bs[1..], bs[2..], bs[3..];
    assert b1[1..] == b2 && b2[1..] == b3 && b3[1..] == [];
    assert FromBytesLittle(b3) == mem(addr + 3);
    assert FromBytesLittle(b2) == mem(addr + 2) + 256 * mem(addr + 3);
    assert FromBytesLittle(b1) == mem(addr + 1) + 256 * mem(addr + 2) + 65536 * mem(addr + 3);
  }

  /** X comes from 0x030038F4 and Y from 0x030038F0, each decoded little-endian. */
  lemma PlayerXYFromAddresses(mem: Memory)
    ensures ReadPlayerXY(mem).0 == mem(0x0300_38F4) + 256 * mem(0x0300_38F5) + 65536 * mem(0x0300_38F6) + 16777216 * mem(0x0300_38F7)
    ensures ReadPlayerXY(mem).1 == mem(0x0300_38F0) + 256 * mem(0x0300_38F1) + 65536 * mem(0x0300_38F2) + 16777216 * mem(0x0300_38F3)
    ensures 0 <= ReadPlayerXY(mem).0 < 0x1_0000_0000 && 0 <= ReadPlayerXY(mem).1 < 0x1_0000_0000
  {
    DecodeFourBytes(mem, PLAYER_X);
    DecodeFourBytes(mem, PLAYER_Y);
  }

  /** The tile a world coordinate falls in: Python's floor division by TILE_SIZE. */
  function Tile(v: int): (t: int)
    ensures TILE_SIZE * t <= v < TILE_SIZE * t + TILE_SIZE
  {
    v / TILE_SIZE
  }

  /**
   * What read_bit does with the value it has read: `bin(256 + value)[-bit - 1] == "1"`,
   * each Python step with its own failure (`+` and `bin` raise TypeError on a byte
   * string, the index raises IndexError beyond the string).
   */
  function BitOf(value: PyValue, bit: int): Result<bool> {
    match PyAdd(PyInt(256), value)
    case Err(e) => Err(e)
    case Ok(sum) =>
      match PyBin(sum)
      case Err(e) => Err(e)
      case Ok(digits) =>
        match PyIndex(digits, -bit - 1)
        case None => Err(IndexError)
        case Some(c) => Ok(c == '1')
  }

  /** read_bit as written: `value` is the byte string gba.read_memory(addr) returns. */
  function ReadBitAsWritten(mem: Memory, addr: int, bit: int): Result<bool> {
    BitOf(PyBytes(ReadMemory(mem, addr, 1)), bit)
  }

  /** Any byte string reaching the addition makes it raise TypeError, before any bit is looked at. */
  lemma BytesOperandRaises(bs: seq<int>, bit: int)
    ensures BitOf(PyBytes(bs), bit) == Err(TypeError("unsupported operand type(s) for +: 'int' and 'bytes'"))
  {
  }

  /** Whatever the memory, address and bit, read_bit as written never returns a bit. */
  lemma ReadBitAsWrittenAlwaysRaises(mem: Memory, addr: int, bit: int)
    ensures ReadBitAsWritten(mem, addr, bit) == Err(TypeError("unsupported operand type(s) for +: 'int' and 'bytes'"))
  {
    BytesOperandRaises(ReadMemory(mem, addr, 1), bit);
  }

  /** read_bit as intended: the same steps on the int value of the byte read. */
  function ReadBit(mem: Memory, addr: int, bit: int): Result<bool> {
    BitOf(PyInt(ReadMemory(mem, addr, 1)[0]), bit)
  }

  /** For bits 0..7 the intended read_bit is the arithmetic bit test; bit 8 is the added 256. */
  lemma ReadBitIsBitTest(mem: Memory, addr: int, bit: int)
    requires 0 <= bit <= 8
    ensures bit < 8 ==> ReadBit(mem, addr, bit) == Ok(mem(addr) / Pow2(bit) % 2 == 1)
    ensures bit == 8 ==> ReadBit(mem, addr, bit) == Ok(true)
  {
    var v: int := mem(addr);
    assert ReadMemory(mem, addr, 1)[0] == v;
    assert PyAdd(PyInt(256), PyInt(v)) == Ok(PyInt(256 + v));
    BinDigitFromEnd(256 + v, bit);
    PowConstants();
    if bit < 8 {
      AddHighBit(v, bit);
    } else {
      assert (256 + v) / 256 == 1;
    }
  }

  /** In bin(n) for a nine-bit n, the character bit+1 from the end is bit `bit` of n. */
  lemma BinDigitFromEnd(n: nat, bit: nat)
    requires 256 <= n < 512 && bit <= 8
    ensures PyIndex(Bin(n), -(bit as int) - 1) == Some(if n / Pow2(bit) % 2 == 1 then '1' else '0')
  {
    PowConstants();
    BinaryLength(n, 8);
    var b := NatToBinary(n);
    var s := Bin(n);
    assert s == "0b" + b && |s| == 11;
    BinaryDigitAt(n, bit);
    assert s[|s| - bit - 1] == b[|b| - 1 - bit];
  }

  lemma AddHighBit(v: nat, bit: nat)
    requires v < 256 && bit < 8
    ensures (256 + v) / Pow2(bit) % 2 == v / Pow2(bit) % 2
  {
    PowConstants();
    PowAdd(bit + 1, 7 - bit);
    AddEvenHigh(v, Pow2(7 - bit), bit);
  }

  /** Adding a multiple of 2^(bit+1) leaves bit `bit` alone. */
  lemma {:induction false} AddEvenHigh(v: nat, k: nat, bit: nat)
    ensures (Pow2(bit + 1) * k + v) / Pow2(bit) % 2 == v / Pow2(bit) % 2
  {
    var m := Pow2(bit) * k;
    assert Pow2(bit + 1) * k == 2 * m;
    if bit > 0 {
      var a := 2 * m + v;
      HalfDiv(a, Pow2(bit - 1));
      HalfDiv(v, Pow2(bit - 1));
      assert a / 2 == m + v / 2;
      AddEvenHigh(v / 2, k, bit - 1);
    }
  }

  lemma {:induction false} PowAdd(a: nat, b: nat)
    ensures Pow2(a + b) == Pow2(a) * Pow2(b)
  {
    if a > 0 {
      PowAdd(a - 1, b);
      assert 2 * (Pow2(a - 1) * Pow2(b)) == (2 * Pow2(a - 1)) * Pow2(b);
    }
  }

  lemma PowConstants()
    ensures Pow2(0) == 1 && Pow2(1) == 2 && Pow2(2) == 4 && Pow2(3) == 8
    ensures Pow2(4) == 16 && Pow2(5) == 32 && Pow2(6) == 64 && Pow2(7) == 128
    ensures Pow2(8) == 256 && Pow2(9) == 512
  {
  }

  /** bit_count(value): the number of '1' characters in bin(value). */
  function BitCount(value: int): nat {
    CountChar(Bin(value), '1')
  }

  /** bit_count is the population count of |value|: 0 for 0, at most 8 for a byte. */
  lemma BitCountIsPopcount(value: int)
    ensures BitCount(value) == Popcount(if value < 0 then -value else value)
    ensures value == 0 ==> BitCount(value) == 0
    ensures 0 <= value < 256 ==> BitCount(value) <= 8
  {
    var m := if value < 0 then -value else value;
    var prefix := if value < 0 then "-0b" else "0b";
    assert Bin(value) == prefix + NatToBinary(m);
    CountCharAppend(prefix, NatToBinary(m), '1');
    assert CountChar(prefix, '1') == 0 by {
      assert "-0b"[..2] == "-0" && "-0"[..1] == "-" && "-"[..0] == "";
      assert "0b"[..1] == "0" && "0"[..0] == "";
    }
    BinaryOnesArePopcount(m);
    if 0 <= value < 256 {
      PopcountBound(m, 8);
    }
  }

  lemma {:induction false} PopcountBound(n: nat, k: nat)
    requires n < Pow2(k)
    ensures Popcount(n) <= k
  {
    if k > 0 && n > 0 {
      PopcountBound(n / 2, k - 1);
    }
  }

  function ReadPlayerHealth(mem: Memory): Byte {
    ReadU8(mem, PLAYER_HEALTH)
  }

  function ReadRupees(mem: Memory): nat {
    ReadU16(mem, RUPEES)
  }

  function ReadSmallKeys(mem: Memory): Byte {
    ReadU8(mem, SMALL_KEYS)
  }

  function ReadSword(mem: Memory): Byte {
    ReadU8(mem, SWORD)
  }

  function ReadEnemiesKilled(mem: Memory): Byte {
    ReadU8(mem, ENEMIES_KILLED)
  }

  /** get_area_description: the area name at the decoded player position. */
  function GetAreaDescription(mem: Memory): string {
    var (x, y) := ReadPlayerXY(mem);
    GetAreaName(x, y)
  }

  /** get_area_rewardable delegates to is_area_rewardable. */
  predicate GetAreaRewardable(x: int, y: int) {
    IsAreaRewardable(x, y)
  }

  /** The description is the area name of the decoded (X, Y). */
  lemma AreaDescriptionAtPlayer(mem: Memory)
    ensures GetAreaDescription(mem) == GetAreaName(ReadPlayerX(mem), ReadPlayerY(mem))
    ensures GetAreaRewardable(ReadPlayerX(mem), ReadPlayerY(mem)) ==>
      !StartsWith(GetAreaDescription(mem), "Unknown Area")
  {
    RewardableFollowsMatch(ReadPlayerX(mem), ReadPlayerY(mem));
  }
}
