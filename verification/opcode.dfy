/** Instruction fetch and the bit fields of a 16-bit opcode (the first lines of
    `execute_opcode` and `emulate_cycle`). The source extracts fields with masks and shifts;
    on unsigned values those are the divisions and remainders written here. */
module Opcode {
  import opened Types

  /** Two bytes at `pc`, big-endian: `byte1 << 8 | byte2`. */
  function Fetch(memory: seq<Byte>, pc: nat): (op: U16)
    requires pc + 1 < |memory|
    ensures op / 0x100 == memory[pc] && op % 0x100 == memory[pc + 1]
  {
    memory[pc] as int * 0x100 + memory[pc + 1]
  }

  /** `(opcode & 0xF000) >> 12`: the operation family. */
  function Family(op: U16): nat { op / 0x1000 }

  /** `(opcode & 0x0F00) >> 8`: the first register operand. */
  function X(op: U16): nat { (op / 0x100) % 0x10 }

  /** `(opcode & 0x00F0) >> 4`: the second register operand. */
  function Y(op: U16): nat { (op / 0x10) % 0x10 }

  /** `opcode & 0x000F`: the 4-bit immediate. */
  function N(op: U16): nat { op % 0x10 }

  /** `opcode & 0x00FF`: the 8-bit immediate. */
  function Kk(op: U16): Byte { op % 0x100 }

  /** `opcode & 0x0FFF`: the 12-bit address. */
  function Nnn(op: U16): U16 { op % 0x1000 }

  /** The opcode whose four nibbles are `family`, `x`, `y` and `n`, most significant first. */
  function Encode(family: nat, x: nat, y: nat, n: nat): (op: U16)
    requires family < 0x10 && x < 0x10 && y < 0x10 && n < 0x10
  {
    family * 0x1000 + x * 0x100 + y * 0x10 + n
  }

  /** Decoding an encoded opcode recovers its nibbles, and the byte and address fields are
      the low two and three nibbles. */
  lemma DecodeEncode(family: nat, x: nat, y: nat, n: nat)
    requires family < 0x10 && x < 0x10 && y < 0x10 && n < 0x10
    ensures var op := Encode(family, x, y, n);
      && Family(op) == family && X(op) == x && Y(op) == y && N(op) == n
      && Kk(op) == y * 0x10 + n
      && Nnn(op) == x * 0x100 + y * 0x10 + n
  {
    var op := Encode(family, x, y, n);
    var lo, hi := y * 0x10 + n, family * 0x10 + x;
    assert 0 <= lo < 0x100 && 0 <= x * 0x100 + lo < 0x1000;
    assert op == family * 0x1000 + (x * 0x100 + lo);
    assert op / 0x1000 == family && op % 0x1000 == x * 0x100 + lo;
    assert op == hi * 0x100 + lo;
    assert op / 0x100 == hi && op % 0x100 == lo;
    assert op == (hi * 0x10 + y) * 0x10 + n;
    assert op / 0x10 == hi * 0x10 + y;
  }

  /** Every 16-bit value is the encoding of its own nibbles; together with DecodeEncode the
      field extraction loses nothing. */
  lemma EncodeDecode(op: U16)
    ensures Family(op) < 0x10 && X(op) < 0x10 && Y(op) < 0x10 && N(op) < 0x10
    ensures Encode(Family(op), X(op), Y(op), N(op)) == op
    ensures Kk(op) == Y(op) * 0x10 + N(op)
    ensures Nnn(op) == X(op) * 0x100 + Kk(op)
  {
    var f, x, y, n := op / 0x1000, (op / 0x100) % 0x10, (op / 0x10) % 0x10, op % 0x10;
    var hi, mid := op / 0x100, op / 0x10;
    assert op == hi * 0x100 + op % 0x100;
    assert hi == f * 0x10 + x;
    assert mid == hi * 0x10 + y;
    assert op == mid * 0x10 + n;
  }
}
