/** Register arithmetic of the `8xyN` family and the decimal split of `Fx33`.

    `Apply` follows the source statement by statement: each carrying arm first writes the
    flag register VF and then reads its operands again to compute Vx. `Reference` states
    the intended arithmetic on the operand values in plain integer terms; `Apply` agrees
    with it whenever the flag write cannot disturb an operand (the bitwise forms and the
    shifts even with VF as an operand), and the `Flag...` lemmas describe the carrying
    forms that read or write a VF operand. */
module Alu {
  import opened Types
  import opened Machine

  /** Result value and, for the arms that produce one, the flag. */
  datatype Outcome = Outcome(value: Byte, flag: Option<Byte>)

  /** The arithmetic each `8xyN` sub-operation stands for, on operands `a` (Vx) and `b` (Vy). */
  function Reference(n: nat, a: Byte, b: Byte): Option<Outcome> {
    if n == 0x0 then Some(Outcome(b, None))
    else if n == 0x1 then Some(Outcome(BitOr(a, b), None))
    else if n == 0x2 then Some(Outcome(BitAnd(a, b), None))
    else if n == 0x3 then Some(Outcome(BitXor(a, b), None))
    else if n == 0x4 then Some(Outcome((a + b) % 0x100, Some(if a + b > 0xFF then 1 else 0)))
    else if n == 0x5 then Some(Outcome((a - b) % 0x100, Some(if a > b then 1 else 0)))
    else if n == 0x6 then Some(Outcome(a / 2, Some(a % 2)))
    else if n == 0x7 then Some(Outcome((b - a) % 0x100, Some(if b > a then 1 else 0)))
    else if n == 0xE then Some(Outcome((2 * a) % 0x100, Some(a / 0x80)))
    else None
  }

  /** `u8::wrapping_add` and `u8::wrapping_sub`. */
  function WrappingAdd(a: Byte, b: Byte): Byte { (a + b) % 0x100 }

  function WrappingSub(a: Byte, b: Byte): Byte { (a - b) % 0x100 }

  /** `>>= 1` on a `u8` halves it; `<<= 1` doubles it and drops the bit shifted out. */
  function ShiftRight1(a: Byte): Byte { a / 2 }

  function ShiftLeft1(a: Byte): Byte { (2 * a) % 0x100 }

  /** `>> 7` on a `u8`, computed on `bv8` as the source does. */
  function ShiftRight7(a: Byte): Byte { ((a as bv8) >> 7) as int }

  /** The bit operations that produce the shift flags are the low bit and the high bit. */
  lemma ShiftArithmetic(a: Byte)
    ensures BitAnd(a, 1) == a % 2
    ensures ShiftRight7(a) == a / 0x80
  {
  }

  /** The `8xyN` arms on the register file `v`, as written: `None` for the sub-operations
      the decoder rejects. */
  function Apply(v: seq<Byte>, x: nat, y: nat, n: nat): (r: Option<seq<Byte>>)
    requires |v| == REGISTER_COUNT && x < REGISTER_COUNT && y < REGISTER_COUNT
    ensures r.Some? <==> Reference(n, 0, 0).Some?
    ensures r.Some? ==> |r.value| == REGISTER_COUNT
    ensures r.Some? ==> forall k :: 0 <= k < REGISTER_COUNT && k != x && k != FLAG ==> r.value[k] == v[k]
    ensures r.Some? && n <= 3 ==> forall k :: 0 <= k < REGISTER_COUNT && k != x ==> r.value[k] == v[k]
  {
    if n == 0x0 then Some(v[x := v[y]])
    else if n == 0x1 then Some(v[x := BitOr(v[x], v[y])])
    else if n == 0x2 then Some(v[x := BitAnd(v[x], v[y])])
    else if n == 0x3 then Some(v[x := BitXor(v[x], v[y])])
    else if n == 0x4 then
      var f := v[FLAG := if v[y] > 0xFF - v[x] then 1 else 0];
      Some(f[x := WrappingAdd(f[x], f[y])])
    else if n == 0x5 then
      var f := v[FLAG := if v[x] > v[y] then 1 else 0];
      Some(f[x := WrappingSub(f[x], f[y])])
    else if n == 0x6 then
      var f := v[FLAG := BitAnd(v[x], 1)];
      Some(f[x := ShiftRight1(f[x])])
    else if n == 0x7 then
      var f := v[FLAG := if v[y] > v[x] then 1 else 0];
      Some(f[x := WrappingSub(f[y], f[x])])
    else if n == 0xE then
      var f := v[FLAG := ShiftRight7(v[x])];
      Some(f[x := ShiftLeft1(f[x])])
    else None
  }

  /** Every sub-operation writes the reference result to Vx and, if it has one, the
      reference flag to VF, whenever the flag write cannot disturb an operand: for the
      flagless forms (N <= 3) always, and for the carrying forms when Vx is not VF and Vy is
      either not VF or not read (the shifts). */
  lemma ApplyMatchesReference(v: seq<Byte>, x: nat, y: nat, n: nat)
    requires |v| == REGISTER_COUNT && x < REGISTER_COUNT && y < REGISTER_COUNT
    requires Reference(n, 0, 0).Some?
    requires n <= 0x3 || (x != FLAG && (y != FLAG || n in {0x6, 0xE}))
    ensures var out := Reference(n, v[x], v[y]).value;
      && Apply(v, x, y, n).value[x] == out.value
      && (out.flag.Some? && x != FLAG ==> Apply(v, x, y, n).value[FLAG] == out.flag.value)
  {
    ShiftArithmetic(v[x]);
  }

  /** With VF as the destination of a flag-producing sub-operation, the flag is computed
      and then used as the left operand, so VF ends up holding the arithmetic result of the
      flag and Vy (itself the fresh flag when Vy is VF too). */
  lemma FlagAsDestination(v: seq<Byte>, y: nat, n: nat)
    requires |v| == REGISTER_COUNT && y < REGISTER_COUNT
    requires n in {0x4, 0x5, 0x6, 0x7, 0xE}
    ensures var flag := Reference(n, v[FLAG], v[y]).value.flag.value;
      var b := if y == FLAG then flag else v[y];
      Apply(v, FLAG, y, n).value[FLAG] == Reference(n, flag, b).value.value
  {
    ShiftArithmetic(v[FLAG]);
    ShiftArithmetic(Reference(n, v[FLAG], v[y]).value.flag.value);
  }

  /** With VF as the source register of a flag-producing sub-operation, the operand read is
      the freshly written flag, not the old VF. */
  lemma FlagAsSource(v: seq<Byte>, x: nat, n: nat)
    requires |v| == REGISTER_COUNT && x < REGISTER_COUNT && x != FLAG
    requires n in {0x4, 0x5, 0x7}
    ensures var flag := Reference(n, v[x], v[FLAG]).value.flag.value;
      && Apply(v, x, FLAG, n).value[x] == Reference(n, v[x], flag).value.value
      && Apply(v, x, FLAG, n).value[FLAG] == flag
  {
  }

  /** A concrete instance: `80F4` with V0 = 1 and VF = 0xFF leaves V0 = 2, where the sum
      1 + 0xFF would wrap to 0. */
  lemma AddWithFlagOperand(v: seq<Byte>)
    requires |v| == REGISTER_COUNT && v[0] == 1 && v[FLAG] == 0xFF
    ensures Apply(v, 0, FLAG, 0x4).value[0] == 2
    ensures Reference(0x4, v[0], v[FLAG]).value.value == 0
  {
  }

  /** `Fx33`: hundreds, tens and units of `value`. */
  function Bcd(value: Byte): (digits: seq<Byte>)
    ensures |digits| == 3
    ensures forall k :: 0 <= k < 3 ==> digits[k] < 10
    ensures 100 * digits[0] as int + 10 * digits[1] as int + digits[2] as int == value as int
  {
    [value / 100, (value % 100) / 10, value % 10]
  }
}
